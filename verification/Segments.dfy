/** The two overloads of get_last_segments, which split a path at its slashes. */
module Segments {
  import opened JsonValues

  const NUL: char := '\0'

  /** The position of the first `c` at or behind `from`, or the length of the text. */
  function IndexOf(text: string, c: char, from: nat): (n: nat)
    requires from <= |text|
    ensures from <= n <= |text|
    ensures n < |text| ==> text[n] == c
    decreases |text| - from
  {
    if from == |text| || text[from] == c then from else IndexOf(text, c, from + 1)
  }

  lemma {:induction false} IndexIsFirst(text: string, c: char, from: nat)
    requires from <= |text|
    ensures forall i :: from <= i < IndexOf(text, c, from) ==> text[i] != c
    decreases |text| - from
  {
    if from < |text| && text[from] != c {
      IndexIsFirst(text, c, from + 1);
    }
  }

  /** Segments end at a slash or, unless that leaves nothing, at the end of the text. */
  function Split(text: string): seq<string>
    decreases |text|
  {
    var n := IndexOf(text, '/', 0);
    if n < |text| then [text[..n]] + Split(text[n + 1..])
    else if text == "" then []
    else [text]
  }

  /** Each segment with a slash behind it. */
  function Terminated(segments: seq<string>): string {
    if segments == [] then "" else segments[0] + "/" + Terminated(segments[1..])
  }

  predicate SlashFree(segments: seq<string>) {
    forall i :: 0 <= i < |segments| ==> '/' !in segments[i]
  }

  /** The part of a buffer that a C string shows. */
  function CString(buffer: string): string {
    buffer[..IndexOf(buffer, NUL, 0)]
  }

  ghost predicate IsSuffix(last: seq<string>, all: seq<string>) {
    exists front: seq<string> :: all == front + last
  }

  function LastOf(segments: seq<string>, count: nat): Outcome<seq<string>> {
    if count == 0 then Ok(segments)
    else if |segments| < count then Thrown
    else Ok(segments[|segments| - count..])
  }

  // --------------------------------------------------------------------------------------------
  // What splitting means
  // --------------------------------------------------------------------------------------------

  lemma {:induction false} SplitIsSlashFree(text: string)
    ensures SlashFree(Split(text))
    decreases |text|
  {
    var n := IndexOf(text, '/', 0);
    IndexIsFirst(text, '/', 0);
    if n < |text| {
      var rest := Split(text[n + 1..]);
      SplitIsSlashFree(text[n + 1..]);
      assert Split(text) == [text[..n]] + rest;
    }
  }

  lemma SlashBetween(text: string, n: nat)
    requires n < |text| && text[n] == '/'
    ensures text == (text[..n] + "/") + text[n + 1..]
    ensures text + "/" == (text[..n] + "/") + (text[n + 1..] + "/")
    ensures n + 1 < |text| ==> text[n + 1..][|text| - n - 2] == text[|text| - 1]
  {
  }

  lemma TerminatedHead(head: string, tail: seq<string>)
    ensures Terminated([head] + tail) == (head + "/") + Terminated(tail)
  {
    assert ([head] + tail)[1..] == tail;
  }

  /** Joining gives the text back up to one slash at its end. */
  lemma {:induction false} SplitThenJoin(text: string)
    ensures Terminated(Split(text))
         == if text == "" || text[|text| - 1] == '/' then text else text + "/"
    decreases |text|
  {
    var n := IndexOf(text, '/', 0);
    if n < |text| {
      var rest := text[n + 1..];
      SplitThenJoin(rest);
      SlashBetween(text, n);
      TerminatedHead(text[..n], Split(rest));
    } else if text != "" {
      IndexIsFirst(text, '/', 0);
      TerminatedHead(text, []);
      assert [text] + [] == [text];
    }
  }

  lemma {:induction false} IndexIsUnique(text: string, c: char, from: nat, n: nat)
    requires from <= n <= |text|
    requires n < |text| ==> text[n] == c
    requires forall i :: from <= i < n ==> text[i] != c
    ensures IndexOf(text, c, from) == n
    decreases n - from
  {
    if from < n {
      IndexIsUnique(text, c, from + 1, n);
    }
  }

  /** And every list of slash-free segments, empty ones included, is the result of a split. */
  lemma {:induction false} JoinThenSplit(segments: seq<string>)
    requires SlashFree(segments)
    ensures Split(Terminated(segments)) == segments
  {
    if segments != [] {
      var rest := Terminated(segments[1..]);
      IndexIsUnique(segments[0] + "/" + rest, '/', 0, |segments[0]|);
      JoinThenSplit(segments[1..]);
      assert (segments[0] + "/" + rest)[|segments[0]| + 1..] == rest;
      assert (segments[0] + "/" + rest)[..|segments[0]|] == segments[0];
    }
  }

  /** The text with a slash at its end, unless it is empty or has one. */
  function Closed(text: string): string {
    if text == "" || text[|text| - 1] == '/' then text else text + "/"
  }

  /** Two texts have the same segments exactly when they differ by no more than a slash at the end. */
  lemma SameSegmentsIff(a: string, b: string)
    ensures Split(a) == Split(b) <==> Closed(a) == Closed(b)
  {
    SplitThenJoin(a);
    SplitThenJoin(b);
    SplitIsSlashFree(a);
    SplitIsSlashFree(b);
    JoinThenSplit(Split(a));
    JoinThenSplit(Split(b));
  }

  // --------------------------------------------------------------------------------------------
  // The overload for string_view
  // --------------------------------------------------------------------------------------------

  lemma SlicesOfSlice(text: string, start: nat, n: nat)
    requires start <= n < |text|
    ensures text[start..][..n - start] == text[start..n]
    ensures text[start..][n - start + 1..] == text[n + 1..]
  {
  }

  lemma {:induction false} IndexBehind(text: string, c: char, start: nat, k: nat)
    requires start + k <= |text|
    ensures IndexOf(text[start..], c, k) == IndexOf(text, c, start + k) - start
    decreases |text| - start - k
  {
    if start + k < |text| && text[start + k] != c {
      IndexBehind(text, c, start, k + 1);
    }
  }

  /** How the part behind `start` splits, in terms of the whole text. */
  lemma SplitBehind(text: string, start: nat)
    requires start <= |text|
    ensures var n := IndexOf(text, '/', start);
            Split(text[start..])
            == if n < |text| then [text[start..n]] + Split(text[n + 1..])
               else if start < |text| then [text[start..]]
               else []
  {
    var n := IndexOf(text, '/', start);
    IndexBehind(text, '/', start, 0);
    SplitAt(text[start..], n - start);
    if n < |text| {
      SlicesOfSlice(text, start, n);
    }
  }

  lemma SplitAt(text: string, n: nat)
    requires n == IndexOf(text, '/', 0)
    ensures Split(text) == if n < |text| then [text[..n]] + Split(text[n + 1..])
                           else if text == "" then []
                           else [text]
  {
  }

  lemma MoveOne(a: seq<string>, x: string, b: seq<string>)
    ensures a + ([x] + b) == (a + [x]) + b && ([x] + b)[1..] == b
  {
  }

  /** It never looks at `count`. */
  method LastSegmentsOfView(uri: string, count: nat) returns (segments: seq<string>)
    ensures segments == Split(uri)
  {
    segments := [];
    var start := 0;
    var found := true;
    ghost var rest := Split(uri);
    assert uri[0..] == uri;
    while found
      invariant start <= |uri|
      invariant rest == if found then Split(uri[start..]) else []
      invariant segments + rest == Split(uri)
      decreases found, |uri| - start
    {
      SplitBehind(uri, start);
      var end := IndexOf(uri, '/', start);
      if end == |uri| {
        found := false;
        if start < |uri| {
          segments := segments + [uri[start..]];
        }
        rest := [];
      } else {
        MoveOne(segments, uri[start..end], Split(uri[end + 1..]));
        rest := rest[1..];
        segments := segments + [uri[start..end]];
        start := end + 1;
      }
    }
  }

  // --------------------------------------------------------------------------------------------
  // The overload for char const *
  // --------------------------------------------------------------------------------------------

  /** std::getline on what is left of a stream: reading up to the end sets `eof`, and nothing can be
      read behind it. */
  datatype Stream = Stream(text: string, pos: nat, eof: bool)

  ghost function Unread(s: Stream): seq<string>
    requires s.pos <= |s.text|
  {
    if s.eof then [] else Split(s.text[s.pos..])
  }

  method GetLine(s: Stream) returns (line: string, ok: bool, after: Stream)
    requires s.pos <= |s.text|
    ensures after.text == s.text && s.pos <= after.pos <= |s.text|
    ensures ok <==> Unread(s) != []
    ensures ok ==> Unread(s) == [line] + Unread(after)
    ensures ok ==> s.pos < after.pos
  {
    SplitBehind(s.text, s.pos);
    if s.eof || s.pos == |s.text| {
      return "", false, s.(eof := true);
    }
    var end := IndexOf(s.text, '/', s.pos);
    line, ok := s.text[s.pos..end], true;
    assert end == |s.text| ==> line == s.text[s.pos..];
    after := if end == |s.text| then s.(pos := end, eof := true) else s.(pos := end + 1);
  }

  method Lines(uri: string) returns (segments: seq<string>)
    ensures segments == Split(uri)
  {
    segments := [];
    var stream := Stream(uri, 0, false);
    assert uri[0..] == uri;
    ghost var rest := Unread(stream);
    var segment, ok;
    segment, ok, stream := GetLine(stream);
    while ok
      invariant stream.text == uri && stream.pos <= |uri|
      invariant ok <==> rest != []
      invariant ok ==> rest == [segment] + Unread(stream)
      invariant segments + rest == Split(uri)
      decreases |rest|
    {
      MoveOne(segments, segment, Unread(stream));
      segments := segments + [segment];
      rest := rest[1..];
      segment, ok, stream := GetLine(stream);
    }
  }

  method LastSegmentsOfCString(buffer: string, count: nat) returns (r: Outcome<seq<string>>)
    ensures r == LastOf(Split(CString(buffer)), count)
    ensures r.Thrown? <==> count > |Split(CString(buffer))|
    ensures r.Ok? && count == 0 ==> r.value == Split(CString(buffer))
    ensures r.Ok? && count > 0 ==> |r.value| == count && IsSuffix(r.value, Split(CString(buffer)))
  {
    var segments := Lines(CString(buffer));
    if count != 0 && |segments| < count {
      return Thrown;
    }
    if count == 0 {
      return Ok(segments);
    }
    assert segments == segments[..|segments| - count] + segments[|segments| - count..];
    return Ok(segments[|segments| - count..]);
  }

  // --------------------------------------------------------------------------------------------
  // When they agree
  // --------------------------------------------------------------------------------------------

  lemma {:induction false} CharsAreKept(segments: seq<string>, c: char)
    requires c != '/'
    ensures c in Terminated(segments) <==> exists i :: 0 <= i < |segments| && c in segments[i]
  {
    if segments != [] {
      CharsAreKept(segments[1..], c);
      assert forall i :: 0 < i < |segments| ==> segments[i] == segments[1..][i - 1];
      var text := segments[0] + "/" + Terminated(segments[1..]);
      assert c in text <==> c in segments[0] || c in Terminated(segments[1..]);
      if i :| 0 <= i < |segments[1..]| && c in segments[1..][i] {
        assert c in segments[i + 1];
      }
    }
  }

  lemma LastOfAddsNothing(segments: seq<string>, count: nat, c: char)
    requires forall i :: 0 <= i < |segments| ==> c !in segments[i]
    requires LastOf(segments, count).Ok?
    ensures var last := LastOf(segments, count).value;
            forall i :: 0 <= i < |last| ==> c !in last[i]
  {
    var last := LastOf(segments, count).value;
    assert forall i :: 0 <= i < |last| ==> last[i] == segments[|segments| - |last| + i];
  }

  /** Both overloads give the same answer exactly when the buffer has no NUL and the count is 0 or
      happens to be the number of segments. */
  lemma OverloadsAgreeIff(buffer: string, count: nat)
    ensures LastOf(Split(CString(buffer)), count) == Ok(Split(buffer))
            <==> NUL !in buffer && (count == 0 || |Split(buffer)| == count)
  {
    var shown := CString(buffer);
    IndexIsFirst(buffer, NUL, 0);
    if NUL !in buffer {
      assert shown == buffer;
    } else {
      SplitThenJoin(buffer);
      SplitThenJoin(shown);
      CharsAreKept(Split(buffer), NUL);
      CharsAreKept(Split(shown), NUL);
      assert NUL !in shown;
      var i :| 0 <= i < |Split(buffer)| && NUL in Split(buffer)[i];
      if LastOf(Split(shown), count).Ok? {
        LastOfAddsNothing(Split(shown), count, NUL);
      }
    }
  }

  /** A C string is the buffer up to its first NUL, or all of it. */
  lemma CStringEndsAtNul(buffer: string)
    ensures var text := CString(buffer);
            && text <= buffer && '\0' !in text
            && (|text| < |buffer| ==> buffer[|text|] == '\0')
  {
    IndexIsFirst(buffer, NUL, 0);
  }

  /** "a//b/" has the segments "a", "" and "b". */
  lemma EmptySegmentsAreKept()
    ensures Split("a//b/") == ["a", "", "b"]
    ensures Split("") == [] && Split("/") == [""]
    ensures LastOf(Split("a//b/"), 2) == Ok(["", "b"])
  {
    JoinThenSplit(["a", "", "b"]);
    JoinThenSplit([""]);
    assert ["a", "", "b"][1..] == ["", "b"] && ["", "b"][1..] == ["b"] && ["b"][1..] == [];
    assert Terminated(["b"]) == "b/" && Terminated(["", "b"]) == "/b/";
    assert Terminated(["a", "", "b"]) == "a//b/" && Terminated([""]) == "/";
  }
}
