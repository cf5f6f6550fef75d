/** The path expressions inside placeholders:

        expression = identifier (property | index)+ modifier?
        property   = '.' identifier
        index      = '[' digit+ ']'
        modifier   = '|' identifier (',' digit+)?

    Parsing is greedy and fires one event per matched rule; whatever follows the longest match is
    ignored. */
module PathGrammar {
  import opened Sequences

  predicate IsDigit(c: char) {
    '0' <= c <= '9'
  }

  predicate IsFirst(c: char) {
    'a' <= c <= 'z' || 'A' <= c <= 'Z' || c == '_'
  }

  predicate IsOther(c: char) {
    IsFirst(c) || IsDigit(c)
  }

  /** start, next(key), next(ix) and modify of EvalState. */
  datatype Event = Start(name: string) | NextKey(key: string) | NextIndex(ix: nat) | Modify(def: string)

  const INT_MAX: nat := 0x7FFF_FFFF

  // --------------------------------------------------------------------------------------------
  // Tokens
  // --------------------------------------------------------------------------------------------

  /** star<identifier_other> */
  function OtherLen(s: string): (n: nat)
    ensures n <= |s|
  {
    if s == [] || !IsOther(s[0]) then 0 else 1 + OtherLen(s[1..])
  }

  /** identifier; 0 when there is none. */
  function IdentLen(s: string): (n: nat)
    ensures n <= |s|
  {
    if s == [] || !IsFirst(s[0]) then 0 else 1 + OtherLen(s[1..])
  }

  /** star<digit> */
  function DigitLen(s: string): (n: nat)
    ensures n <= |s|
  {
    if s == [] || !IsDigit(s[0]) then 0 else 1 + DigitLen(s[1..])
  }

  predicate IsIdent(s: string) {
    s != [] && IsFirst(s[0]) && AllOther(s[1..])
  }

  predicate AllOther(s: string) {
    forall i :: 0 <= i < |s| ==> IsOther(s[i])
  }

  predicate AllDigits(s: string) {
    forall i :: 0 <= i < |s| ==> IsDigit(s[i])
  }

  lemma {:induction false} OtherLenIsMaximal(a: string, b: string)
    requires AllOther(a) && (b == [] || !IsOther(b[0]))
    ensures OtherLen(a + b) == |a|
  {
    if a == [] {
      assert a + b == b;
    } else {
      assert (a + b)[1..] == a[1..] + b;
      OtherLenIsMaximal(a[1..], b);
    }
  }

  lemma IdentLenIsMaximal(a: string, b: string)
    requires IsIdent(a) && (b == [] || !IsOther(b[0]))
    ensures IdentLen(a + b) == |a|
  {
    assert (a + b)[1..] == a[1..] + b;
    OtherLenIsMaximal(a[1..], b);
  }

  lemma {:induction false} DigitLenIsMaximal(a: string, b: string)
    requires AllDigits(a) && (b == [] || !IsDigit(b[0]))
    ensures DigitLen(a + b) == |a|
  {
    if a == [] {
      assert a + b == b;
    } else {
      assert (a + b)[1..] == a[1..] + b;
      DigitLenIsMaximal(a[1..], b);
    }
  }

  lemma {:induction false} OtherLenMatches(s: string)
    ensures AllOther(s[..OtherLen(s)])
    ensures OtherLen(s) < |s| ==> !IsOther(s[OtherLen(s)])
  {
    if s != [] && IsOther(s[0]) {
      OtherLenMatches(s[1..]);
      assert s[..OtherLen(s)] == [s[0]] + s[1..][..OtherLen(s[1..])];
    }
  }

  lemma IdentLenMatches(s: string)
    ensures IdentLen(s) > 0 ==> IsIdent(s[..IdentLen(s)])
  {
    if IdentLen(s) > 0 {
      OtherLenMatches(s[1..]);
      assert s[..IdentLen(s)][1..] == s[1..][..OtherLen(s[1..])];
    }
  }

  lemma {:induction false} DigitLenMatches(s: string)
    ensures AllDigits(s[..DigitLen(s)])
  {
    if s != [] && IsDigit(s[0]) {
      DigitLenMatches(s[1..]);
      assert s[..DigitLen(s)] == [s[0]] + s[1..][..DigitLen(s[1..])];
    }
  }

  // --------------------------------------------------------------------------------------------
  // Decimal numbers
  // --------------------------------------------------------------------------------------------

  function DigitValue(c: char): nat
    requires IsDigit(c)
  {
    c as int - '0' as int
  }

  /** stoi on digits, before the range check. */
  function Number(digits: string): nat
    requires AllDigits(digits)
  {
    if digits == [] then 0
    else Number(digits[..|digits| - 1]) * 10 + DigitValue(digits[|digits| - 1])
  }

  function Decimal(n: nat): (s: string)
    ensures s != [] && AllDigits(s)
  {
    var last := ('0' as int + n % 10) as char;
    if n < 10 then [last] else Decimal(n / 10) + [last]
  }

  lemma {:induction false} NumberDecimal(n: nat)
    ensures Number(Decimal(n)) == n
  {
    var s := Decimal(n);
    if n < 10 {
      assert s[..0] == [];
    } else {
      NumberDecimal(n / 10);
      assert s[..|s| - 1] == Decimal(n / 10);
    }
  }

  // --------------------------------------------------------------------------------------------
  // The parser
  // --------------------------------------------------------------------------------------------

  /** `Matched` leaves `rest` unread; `Failed` is a parse that returns false, `Threw` an index that
      does not fit an int.  The events fired until then stand in both cases. */
  datatype Parsed =
    | Matched(events: seq<Event>, rest: string)
    | Failed(events: seq<Event>)
    | Threw(events: seq<Event>)

  function After(event: Event, p: Parsed): Parsed {
    match p
    case Matched(events, rest) => Matched([event] + events, rest)
    case Failed(events) => Failed([event] + events)
    case Threw(events) => Threw([event] + events)
  }

  /** Length of a property, with its dot; 0 when there is none. */
  function PropertyLen(s: string): (n: nat)
    ensures n <= |s|
  {
    if s != [] && s[0] == '.' && IdentLen(s[1..]) > 0 then 1 + IdentLen(s[1..]) else 0
  }

  /** Length of an index, with its brackets; 0 when there is none. */
  function IndexLen(s: string): (n: nat)
    ensures n <= |s| && (n > 0 ==> n >= 3)
  {
    if s != [] && s[0] == '[' then
      var d := DigitLen(s[1..]);
      if d > 0 && 1 + d < |s| && s[1 + d] == ']' then d + 2 else 0
    else 0
  }

  function ModifierLen(s: string): (n: nat)
    ensures n <= |s|
  {
    if s != [] && s[0] == '|' && IdentLen(s[1..]) > 0 then
      var n := 1 + IdentLen(s[1..]);
      if n < |s| && s[n] == ',' && DigitLen(s[n + 1..]) > 0 then n + 1 + DigitLen(s[n + 1..]) else n
    else 0
  }

  /** star<sor<property, index>>, then opt<modifier>. */
  function Steps(s: string): Parsed
    decreases |s|
  {
    var p, i, m := PropertyLen(s), IndexLen(s), ModifierLen(s);
    if p > 0 then After(NextKey(s[1..p]), Steps(s[p..]))
    else if i > 0 then
      IndexDigits(s);
      var ix := Number(s[1..i - 1]);
      if ix > INT_MAX then Threw([]) else After(NextIndex(ix), Steps(s[i..]))
    else if m > 0 then Matched([Modify(s[1..m])], s[m..])
    else Matched([], s)
  }

  lemma IndexDigits(s: string)
    ensures IndexLen(s) > 0 ==> AllDigits(s[1..IndexLen(s) - 1])
  {
    if IndexLen(s) > 0 {
      DigitLenMatches(s[1..]);
      assert s[1..IndexLen(s) - 1] == s[1..][..DigitLen(s[1..])];
    }
  }

  function Parse(s: string): Parsed {
    var n := IdentLen(s);
    if n == 0 then Failed([])
    else if PropertyLen(s[n..]) == 0 && IndexLen(s[n..]) == 0 then Failed([Start(s[..n])])
    else After(Start(s[..n]), Steps(s[n..]))
  }

  // --------------------------------------------------------------------------------------------
  // Paths
  // --------------------------------------------------------------------------------------------

  datatype Step = Property(name: string) | Index(digits: string)

  datatype Modifier = NoModifier | Modifier(name: string, argument: string)

  datatype Tail = End(modifier: Modifier) | More(step: Step, rest: Tail)

  datatype Path = Path(head: string, tail: Tail)

  predicate ValidStep(step: Step) {
    match step
    case Property(name) => IsIdent(name)
    case Index(digits) => digits != [] && AllDigits(digits) && Number(digits) <= INT_MAX
  }

  predicate ValidModifier(m: Modifier) {
    m.Modifier? ==> IsIdent(m.name) && AllDigits(m.argument)
  }

  predicate ValidTail(t: Tail) {
    match t
    case End(m) => ValidModifier(m)
    case More(step, rest) => ValidStep(step) && ValidTail(rest)
  }

  predicate ValidPath(p: Path) {
    IsIdent(p.head) && p.tail.More? && ValidTail(p.tail)
  }

  function PrintStep(step: Step): string {
    match step
    case Property(name) => "." + name
    case Index(digits) => "[" + digits + "]"
  }

  /** A modifier without its bar; an empty argument is no argument. */
  function Definition(m: Modifier): string
    requires m.Modifier?
  {
    if m.argument == [] then m.name else m.name + ("," + m.argument)
  }

  function PrintTail(t: Tail): string {
    match t
    case End(m) => if m.NoModifier? then [] else "|" + Definition(m)
    case More(step, rest) => PrintStep(step) + PrintTail(rest)
  }

  function Print(p: Path): string {
    p.head + PrintTail(p.tail)
  }

  function StepEvent(step: Step): Event
    requires ValidStep(step)
  {
    match step
    case Property(name) => NextKey(name)
    case Index(digits) => NextIndex(Number(digits))
  }

  function TailEvents(t: Tail): seq<Event>
    requires ValidTail(t)
  {
    match t
    case End(m) => if m.NoModifier? then [] else [Modify(Definition(m))]
    case More(step, rest) => [StepEvent(step)] + TailEvents(rest)
  }

  function Events(p: Path): seq<Event>
    requires ValidPath(p)
  {
    [Start(p.head)] + TailEvents(p.tail)
  }

  /** The tail of a printed path never continues an identifier. */
  lemma TailStarts(t: Tail)
    ensures var s := PrintTail(t); s == [] || !IsOther(s[0])
  {
  }

  lemma PropertyParses(name: string, tail: string)
    requires IsIdent(name) && (tail == [] || !IsOther(tail[0]))
    ensures var s := "." + name + tail;
            PropertyLen(s) == 1 + |name| && s[1..1 + |name|] == name && s[1 + |name|..] == tail
  {
    var s := "." + name + tail;
    assert s[1..] == name + tail;
    IdentLenIsMaximal(name, tail);
  }

  lemma IndexParses(digits: string, tail: string)
    requires digits != [] && AllDigits(digits)
    ensures var s := "[" + digits + "]" + tail;
            && PropertyLen(s) == 0 && IndexLen(s) == |digits| + 2
            && s[1..|digits| + 1] == digits && s[|digits| + 2..] == tail
  {
    var s := "[" + digits + "]" + tail;
    assert s[1..] == digits + ("]" + tail);
    DigitLenIsMaximal(digits, "]" + tail);
  }

  lemma ModifierParses(m: Modifier)
    requires m.Modifier? && ValidModifier(m)
    ensures var s := "|" + Definition(m);
            PropertyLen(s) == 0 && IndexLen(s) == 0 && ModifierLen(s) == |s| && s[1..] == Definition(m)
  {
    var s := "|" + Definition(m);
    assert s[1..] == Definition(m);
    if m.argument == [] {
      assert Definition(m) == m.name + "";
      IdentLenIsMaximal(m.name, "");
    } else {
      ArgumentParses(m);
    }
  }

  lemma ArgumentParses(m: Modifier)
    requires m.Modifier? && ValidModifier(m) && m.argument != []
    ensures var s := "|" + Definition(m);
            var n := 1 + |m.name|;
            && IdentLen(s[1..]) == |m.name| && n < |s| && s[n] == ','
            && DigitLen(s[n + 1..]) == |m.argument| && n + 1 + |m.argument| == |s|
  {
    var s := "|" + Definition(m);
    assert s[1..] == m.name + ("," + m.argument);
    IdentLenIsMaximal(m.name, "," + m.argument);
    assert s[1 + |m.name| + 1..] == m.argument + "";
    DigitLenIsMaximal(m.argument, "");
  }

  /** One printed step in front of a text that parses. */
  lemma StepParses(step: Step, tail: string)
    requires ValidStep(step) && (tail == [] || !IsOther(tail[0]))
    ensures var s := PrintStep(step) + tail;
            Steps(s) == After(StepEvent(step), Steps(tail)) && (PropertyLen(s) > 0 || IndexLen(s) > 0)
  {
    var s := PrintStep(step) + tail;
    match step {
      case Property(name) =>
        PropertyParses(name, tail);
        assert s == "." + name + tail;
      case Index(digits) =>
        IndexParses(digits, tail);
        assert s == "[" + digits + "]" + tail;
    }
  }

  lemma EndParses(m: Modifier)
    requires ValidModifier(m)
    ensures Steps(PrintTail(End(m))) == Matched(TailEvents(End(m)), [])
  {
    var s := PrintTail(End(m));
    if m.Modifier? {
      ModifierParses(m);
      assert s[1..|s|] == s[1..] && s[|s|..] == [];
    } else {
      assert PropertyLen(s) == 0 && IndexLen(s) == 0 && ModifierLen(s) == 0;
    }
  }

  lemma {:induction false} TailParses(t: Tail)
    requires ValidTail(t)
    ensures Steps(PrintTail(t)) == Matched(TailEvents(t), [])
    ensures t.More? ==> PropertyLen(PrintTail(t)) > 0 || IndexLen(PrintTail(t)) > 0
  {
    match t {
      case End(m) =>
        EndParses(m);
      case More(step, rest) =>
        TailStarts(rest);
        TailParses(rest);
        StepParses(step, PrintTail(rest));
    }
  }

  /** Printing a path and parsing it consumes the whole text and fires exactly its events. */
  lemma PrintedPathParses(p: Path)
    requires ValidPath(p)
    ensures Parse(Print(p)) == Matched(Events(p), [])
  {
    var tail := PrintTail(p.tail);
    TailStarts(p.tail);
    IdentLenIsMaximal(p.head, tail);
    TailParses(p.tail);
    assert Print(p)[..|p.head|] == p.head && Print(p)[|p.head|..] == tail;
  }

  /** The modifier read off a matched modifier text. */
  lemma ModifierShape(s: string) returns (m: Modifier)
    requires ModifierLen(s) > 0
    ensures m.Modifier? && ValidModifier(m) && Definition(m) == s[1..ModifierLen(s)]
  {
    var n := 1 + IdentLen(s[1..]);
    IdentLenMatches(s[1..]);
    var name := s[1..][..n - 1];
    assert s[1..n] == name;
    if ModifierLen(s) == n {
      m := Modifier(name, []);
    } else {
      DigitLenMatches(s[n + 1..]);
      var d := DigitLen(s[n + 1..]);
      m := Modifier(name, s[n + 1..][..d]);
      assert s[1..n + 1 + d] == name + ("," + m.argument);
    }
  }

  lemma PropertyShape(s: string) returns (step: Step)
    requires PropertyLen(s) > 0
    ensures var n := PropertyLen(s);
            && 0 < n <= |s| && ValidStep(step) && s == PrintStep(step) + s[n..]
            && StepEvent(step) == NextKey(s[1..n])
  {
    var n := PropertyLen(s);
    IdentLenMatches(s[1..]);
    assert s[1..n] == s[1..][..n - 1];
    step := Property(s[1..n]);
    assert s == "." + s[1..n] + s[n..];
  }

  lemma IndexShape(s: string) returns (step: Step)
    requires IndexLen(s) > 0 && AllDigits(s[1..IndexLen(s) - 1]) && Number(s[1..IndexLen(s) - 1]) <= INT_MAX
    ensures var n := IndexLen(s);
            && 0 < n <= |s| && ValidStep(step) && s == PrintStep(step) + s[n..]
            && StepEvent(step) == NextIndex(Number(s[1..n - 1]))
  {
    var n := IndexLen(s);
    step := Index(s[1..n - 1]);
    assert s == "[" + s[1..n - 1] + "]" + s[n..];
  }

  /** A matched property or index is a printed step. */
  lemma StepShape(s: string) returns (step: Step, n: nat)
    requires Steps(s).Matched? && (PropertyLen(s) > 0 || IndexLen(s) > 0)
    ensures 0 < n <= |s| && ValidStep(step) && s == PrintStep(step) + s[n..]
    ensures Steps(s) == After(StepEvent(step), Steps(s[n..]))
  {
    if PropertyLen(s) > 0 {
      n := PropertyLen(s);
      step := PropertyShape(s);
    } else {
      n := IndexLen(s);
      IndexDigits(s);
      step := IndexShape(s);
    }
  }

  /** What the parser consumes is a printed tail, with its events. */
  lemma {:induction false} StepsAreTail(s: string) returns (t: Tail)
    requires Steps(s).Matched?
    ensures ValidTail(t) && Steps(s).events == TailEvents(t)
    ensures s == PrintTail(t) + Steps(s).rest
    ensures PropertyLen(s) > 0 || IndexLen(s) > 0 ==> t.More?
    decreases |s|
  {
    if PropertyLen(s) > 0 || IndexLen(s) > 0 {
      var step, n := StepShape(s);
      var rest := StepsAreTail(s[n..]);
      t := More(step, rest);
      Assoc(PrintStep(step), PrintTail(rest), Steps(s).rest);
    } else if ModifierLen(s) > 0 {
      var m := ModifierShape(s);
      t := End(m);
      assert s == "|" + s[1..ModifierLen(s)] + s[ModifierLen(s)..];
    } else {
      t := End(NoModifier);
    }
  }

  lemma MatchedShape(s: string) returns (head: string, tail: string)
    requires Parse(s).Matched?
    ensures s == head + tail && IsIdent(head) && Steps(tail).Matched?
    ensures PropertyLen(tail) > 0 || IndexLen(tail) > 0
    ensures Parse(s) == After(Start(head), Steps(tail))
  {
    var n := IdentLen(s);
    IdentLenMatches(s);
    head, tail := s[..n], s[n..];
  }

  lemma WholeTextIsPath(s: string) returns (p: Path)
    requires Parse(s).Matched? && Parse(s).rest == []
    ensures ValidPath(p) && Print(p) == s && Events(p) == Parse(s).events
  {
    var head, tail := MatchedShape(s);
    var t := StepsAreTail(tail);
    p := Path(head, t);
    assert PrintTail(t) + [] == PrintTail(t);
  }

  /** A text is consumed as a whole, with given events, exactly when it is a printed path. */
  lemma ParsesIffPath(s: string, events: seq<Event>)
    ensures Parse(s) == Matched(events, [])
        <==> exists p: Path :: ValidPath(p) && Print(p) == s && Events(p) == events
  {
    if Parse(s) == Matched(events, []) {
      var p := WholeTextIsPath(s);
    }
    forall p: Path | ValidPath(p) && Print(p) == s && Events(p) == events
      ensures Parse(s) == Matched(events, [])
    {
      PrintedPathParses(p);
    }
  }

  /** Decimal indices up to INT_MAX come back as themselves; larger ones throw. */
  lemma DecimalIndex(head: string, n: nat)
    requires IsIdent(head)
    ensures Parse(head + ("[" + Decimal(n) + "]"))
         == if n <= INT_MAX then Matched([Start(head), NextIndex(n)], []) else Threw([Start(head)])
  {
    var digits := Decimal(n);
    var tail := "[" + digits + "]";
    var s := head + tail;
    NumberDecimal(n);
    IdentLenIsMaximal(head, tail);
    assert s[..|head|] == head && s[|head|..] == tail;
    IndexParses(digits, []);
    assert tail == "[" + digits + "]" + [];
    assert Steps([]) == Matched([], []);
  }

  /** What the parser consumes of a text, with a rest or not, is a printed path with the events fired. */
  lemma ConsumedIsPath(s: string) returns (p: Path)
    requires Parse(s).Matched?
    ensures ValidPath(p) && s == Print(p) + Parse(s).rest && Events(p) == Parse(s).events
  {
    var head, tail := MatchedShape(s);
    var t := StepsAreTail(tail);
    p := Path(head, t);
    Assoc(head, PrintTail(t), Parse(s).rest);
  }

  const LOWER: string := "abcdefghijklmnopqrstuvwxyz"
  const UPPER: string := "ABCDEFGHIJKLMNOPQRSTUVWXYZ"
  const DIGITS: string := "0123456789"

  lemma LowerCharacters(c: char)
    ensures c in LOWER <==> 'a' <= c <= 'z'
  {
    if 'a' <= c <= 'z' {
      assert LOWER[c as int - 'a' as int] == c;
    }
  }

  lemma UpperCharacters(c: char)
    ensures c in UPPER <==> 'A' <= c <= 'Z'
  {
    if 'A' <= c <= 'Z' {
      assert UPPER[c as int - 'A' as int] == c;
    }
  }

  lemma DigitCharacters(c: char)
    ensures c in DIGITS <==> IsDigit(c)
  {
    if IsDigit(c) {
      assert DIGITS[c as int - '0' as int] == c;
    }
  }

  /** Identifiers begin with a Latin letter or an underscore and go on with these and digits. */
  lemma IdentifierCharacters(c: char)
    ensures IsFirst(c) <==> c in LOWER || c in UPPER || c == '_'
    ensures IsOther(c) <==> c in LOWER || c in UPPER || c == '_' || c in DIGITS
  {
    LowerCharacters(c);
    UpperCharacters(c);
    DigitCharacters(c);
  }

  /** The path "m.a[12]|f,2" as a text and as what it fires. */
  lemma ExampleParses()
    ensures Parse("m" + (".a" + ("[12]" + "|f,2")))
         == Matched([Start("m")] + ([NextKey("a")] + ([NextIndex(12)] + [Modify("f,2")])), "")
  {
    var tail := More(Property("a"), More(Index("12"), End(Modifier("f", "2"))));
    var path := Path("m", tail);
    ExampleTail(tail);
    assert IsIdent(path.head);
    PrintedPathParses(path);
    assert Print(path) == path.head + PrintTail(tail) && Events(path) == [Start(path.head)] + TailEvents(tail);
  }

  lemma ExampleTail(tail: Tail)
    requires tail == More(Property("a"), More(Index("12"), End(Modifier("f", "2"))))
    ensures ValidTail(tail) && PrintTail(tail) == ".a" + ("[12]" + "|f,2")
    ensures TailEvents(tail) == [NextKey("a")] + ([NextIndex(12)] + [Modify("f,2")])
  {
    ExampleIndex(tail.rest);
    assert IsIdent(tail.step.name);
    assert PrintStep(tail.step) == ".a";
  }

  lemma ExampleIndex(index: Tail)
    requires index == More(Index("12"), End(Modifier("f", "2")))
    ensures ValidTail(index) && PrintTail(index) == "[12]" + "|f,2"
    ensures TailEvents(index) == [NextIndex(12)] + [Modify("f,2")]
  {
    ExampleNumber();
    ExampleEnd(index.rest);
    assert PrintStep(Index("12")) == "[12]";
  }

  lemma ExampleEnd(end: Tail)
    requires end == End(Modifier("f", "2"))
    ensures ValidTail(end) && PrintTail(end) == "|f,2" && TailEvents(end) == [Modify("f,2")]
  {
    assert IsIdent("f") && AllDigits("2");
    assert Definition(end.modifier) == "f,2";
  }

  lemma ExampleNumber()
    ensures AllDigits("12") && Number("12") == 12
  {
    assert "12"[..1] == "1" && "1"[..0] == "";
    assert Number("1") == 1;
  }
}
