// pkg/expression/parser.go: splitting a call's argument text at its top-level commas.

module Arguments {
  /** Outside any string at some bracket depth, or inside a string opened by `quote`. */
  datatype Scanner = Outside(depth: int) | Inside(quote: char, depth: int, afterBackslash: bool)

  const START := Outside(0)

  predicate IsQuote(c: char) { c == '"' || c == '\'' }
  predicate IsOpening(c: char) { c == '(' || c == '[' || c == '{' }
  predicate IsClosing(c: char) { c == ')' || c == ']' || c == '}' }

  function Scan(st: Scanner, c: char): Scanner {
    match st
    case Inside(quote, depth, afterBackslash) =>
      if c == quote && !afterBackslash then Outside(depth) else Inside(quote, depth, c == '\\')
    case Outside(depth) =>
      if IsQuote(c) then Inside(c, depth, false)
      else if IsOpening(c) then Outside(depth + 1)
      else if IsClosing(c) then Outside(depth - 1)
      else st
  }

  function ScanAll(st: Scanner, s: string): Scanner {
    if |s| == 0 then st else Scan(ScanAll(st, s[..|s| - 1]), s[|s| - 1])
  }

  /** Position `i` holds a comma outside strings and brackets. */
  predicate CutsAt(s: string, i: int)
    requires 0 <= i < |s|
  {
    s[i] == ',' && ScanAll(START, s[..i]) == START
  }

  /** The parts completed so far, and the one being read. */
  datatype Split = Split(parts: seq<string>, current: string)

  function SplitUpTo(s: string): Split {
    if |s| == 0 then Split([], "")
    else
      var before := SplitUpTo(s[..|s| - 1]);
      if CutsAt(s, |s| - 1) then Split(before.parts + [before.current], "")
      else Split(before.parts, before.current + [s[|s| - 1]])
  }

  /** A last part is kept only if it is not empty. */
  function SplitArguments(s: string): seq<string> {
    var r := SplitUpTo(s);
    if |r.current| > 0 then r.parts + [r.current] else r.parts
  }

  function Join(parts: seq<string>): string {
    if |parts| == 0 then ""
    else if |parts| == 1 then parts[0]
    else Join(parts[..|parts| - 1]) + "," + parts[|parts| - 1]
  }

  /** splitArguments: one pass over the text, with the scanner state in local variables. */
  method SplitText(s: string) returns (result: seq<string>)
    ensures result == SplitArguments(s)
  {
    result := [];
    var current := "";
    var depth := 0;
    var inString := false;
    var stringChar := '\0';
    for i := 0 to |s|
      invariant SplitUpTo(s[..i]) == Split(result, current)
      invariant inString ==> i > 0 && ScanAll(START, s[..i]) == Inside(stringChar, depth, s[i - 1] == '\\')
      invariant !inString ==> ScanAll(START, s[..i]) == Outside(depth)
    {
      var c := s[i];
      assert s[..i + 1][..i] == s[..i];
      if inString {
        current := current + [c];
        if c == stringChar && (i == 0 || s[i - 1] != '\\') {
          inString := false;
        }
      } else if IsQuote(c) {
        inString := true;
        stringChar := c;
        current := current + [c];
      } else if IsOpening(c) {
        depth := depth + 1;
        current := current + [c];
      } else if IsClosing(c) {
        depth := depth - 1;
        current := current + [c];
      } else if c == ',' && depth == 0 {
        result := result + [current];
        current := "";
      } else {
        current := current + [c];
      }
    }
    assert s[..|s|] == s;
    if |current| > 0 {
      result := result + [current];
    }
  }

  // ---- Where a text is cut ----

  function CountOf(s: string, chars: string): nat {
    if |s| == 0 then 0 else CountOf(s[..|s| - 1], chars) + if s[|s| - 1] in chars then 1 else 0
  }

  predicate Unquoted(s: string) {
    '"' !in s && '\'' !in s
  }

  /** Without quotes the depth is the opening brackets less the closing ones, of any of the three kinds. */
  lemma {:induction false} DepthCounts(s: string, d: int)
    requires Unquoted(s)
    ensures ScanAll(Outside(d), s) == Outside(d + CountOf(s, "([{") - CountOf(s, ")]}"))
  {
    if |s| > 0 {
      DepthCounts(s[..|s| - 1], d);
      assert s[|s| - 1] in s;
    }
  }

  /** There the text is cut exactly at the commas before which as many brackets were closed as opened. */
  lemma CutsCounted(s: string, i: nat)
    requires i < |s| && Unquoted(s[..i])
    ensures CutsAt(s, i) <==> s[i] == ',' && CountOf(s[..i], "([{") == CountOf(s[..i], ")]}")
  {
    DepthCounts(s[..i], 0);
  }

  /** A string, opened by either quote, lasts until that quote comes without a backslash right before it;
      brackets and the other quote mean nothing inside. */
  lemma {:induction false} StringLasts(d: int, q: char, body: string)
    requires q == '"' || q == '\''
    requires forall i :: 0 <= i < |body| && body[i] == q ==> i > 0 && body[i - 1] == '\\'
    ensures ScanAll(Outside(d), [q] + body) == Inside(q, d, |body| > 0 && body[|body| - 1] == '\\')
    ensures (|body| > 0 ==> body[|body| - 1] != '\\') ==> ScanAll(Outside(d), [q] + body + [q]) == Outside(d)
  {
    var open := [q] + body;
    assert (open + [q])[..|open|] == open;
    if |body| > 0 {
      StringLasts(d, q, body[..|body| - 1]);
      assert open[..|open| - 1] == [q] + body[..|body| - 1];
    } else {
      assert open == [q] && open[..0] == [];
    }
  }

  // ---- Joining undoes splitting ----

  lemma JoinSnoc(parts: seq<string>, last: string)
    ensures Join(parts + [last]) == if |parts| == 0 then last else Join(parts) + "," + last
  {
    assert (parts + [last])[..|parts|] == parts;
  }

  lemma {:induction false} JoinCurrent(s: string)
    ensures var r := SplitUpTo(s); Join(r.parts + [r.current]) == s
  {
    if |s| > 0 {
      var before, r := SplitUpTo(s[..|s| - 1]), SplitUpTo(s);
      JoinCurrent(s[..|s| - 1]);
      assert s == s[..|s| - 1] + [s[|s| - 1]];
      JoinSnoc(r.parts, r.current);
      JoinSnoc(before.parts, before.current);
    } else {
      assert Join([] + [""]) == "";
    }
  }

  /** Joining the parts gives back the text, up to one final top-level comma. */
  lemma JoinSplit(s: string)
    ensures Join(SplitArguments(s)) == if |s| > 0 && CutsAt(s, |s| - 1) then s[..|s| - 1] else s
  {
    JoinCurrent(s);
    if |s| > 0 && CutsAt(s, |s| - 1) {
      JoinCurrent(s[..|s| - 1]);
    }
  }

  // ---- Splitting undoes joining ----

  /** Strings closed, brackets matched in number, no comma outside them. */
  predicate Sealed(a: string) {
    ScanAll(START, a) == START && forall i :: 0 <= i < |a| ==> !CutsAt(a, i)
  }

  lemma {:induction false} ScanAppend(st: Scanner, a: string, b: string)
    ensures ScanAll(st, a + b) == ScanAll(ScanAll(st, a), b)
  {
    if |b| == 0 {
      assert a + b == a;
    } else {
      assert (a + b)[..|a + b| - 1] == a + b[..|b| - 1];
      ScanAppend(st, a, b[..|b| - 1]);
    }
  }

  /** Reading on from a point outside strings and brackets. */
  lemma {:induction false} SplitAppend(a: string, b: string)
    requires ScanAll(START, a) == START
    ensures var x, y := SplitUpTo(a), SplitUpTo(b);
            SplitUpTo(a + b) == if |y.parts| == 0 then Split(x.parts, x.current + y.current)
                                else Split(x.parts + [x.current + y.parts[0]] + y.parts[1..], y.current)
  {
    if |b| == 0 {
      assert a + b == a;
    } else {
      var front := b[..|b| - 1];
      assert (a + b)[..|a + b| - 1] == a + front;
      SplitAppend(a, front);
      ScanAppend(START, a, front);
      assert CutsAt(a + b, |a + b| - 1) <==> CutsAt(b, |b| - 1);
    }
  }

  lemma {:induction false} SealedIsOnePart(a: string)
    requires forall i :: 0 <= i < |a| ==> !CutsAt(a, i)
    ensures SplitUpTo(a) == Split([], a)
  {
    if |a| > 0 {
      var front := a[..|a| - 1];
      forall i | 0 <= i < |front| ensures !CutsAt(front, i) {
        assert front[..i] == a[..i] && !CutsAt(a, i);
      }
      SealedIsOnePart(front);
    }
  }

  lemma CommaCuts()
    ensures ScanAll(START, ",") == START && SplitUpTo(",") == Split([""], "")
  {
    assert ","[..0] == "" && ScanAll(START, "") == START;
    assert CutsAt(",", 0);
  }

  lemma {:induction false} SplitJoined(args: seq<string>)
    requires |args| > 0 && forall i :: 0 <= i < |args| ==> Sealed(args[i])
    ensures ScanAll(START, Join(args)) == START
    ensures SplitUpTo(Join(args)) == Split(args[..|args| - 1], args[|args| - 1])
  {
    var front, last := args[..|args| - 1], args[|args| - 1];
    assert Sealed(last);
    SealedIsOnePart(last);
    if |front| > 0 {
      SplitJoined(front);
      CommaCuts();
      SplitAppend(Join(front), ",");
      ScanAppend(START, Join(front), ",");
      SplitAppend(Join(front) + ",", last);
      ScanAppend(START, Join(front) + ",", last);
      assert front[..|front| - 1] + [front[|front| - 1]] == front;
    }
  }

  /** Splitting inverts joining sealed arguments exactly when there are none or the last is not empty;
      an empty last argument is lost. */
  lemma SplitJoin(args: seq<string>)
    requires forall i :: 0 <= i < |args| ==> Sealed(args[i])
    ensures SplitArguments(Join(args)) == args <==> |args| == 0 || |args[|args| - 1]| > 0
    ensures |args| > 0 && |args[|args| - 1]| == 0 ==> SplitArguments(Join(args)) == args[..|args| - 1]
  {
    if |args| > 0 {
      SplitJoined(args);
      assert args[..|args| - 1] + [args[|args| - 1]] == args;
    } else {
      assert SplitUpTo("") == Split([], "");
    }
  }

  // ---- What the parts look like ----

  lemma {:induction false} SplitParts(s: string)
    ensures var r := SplitUpTo(s);
            && (forall k :: 0 <= k < |r.parts| ==> Sealed(r.parts[k]) && |r.parts[k]| < |s|)
            && (forall i :: 0 <= i < |r.current| ==> !CutsAt(r.current, i))
            && |r.current| <= |s| && ScanAll(START, r.current) == ScanAll(START, s)
  {
    if |s| > 0 {
      var front, c := s[..|s| - 1], s[|s| - 1];
      SplitParts(front);
      var before, r := SplitUpTo(front), SplitUpTo(s);
      if CutsAt(s, |s| - 1) {
        assert ScanAll(START, "") == START;
      } else {
        assert r.current[..|before.current|] == before.current;
        forall i | 0 <= i < |r.current| ensures !CutsAt(r.current, i) {
          if i < |before.current| {
            assert r.current[..i] == before.current[..i] && !CutsAt(before.current, i);
          }
        }
      }
    }
  }

  /** Every part but the last is sealed, no part has a top-level comma, none is longer than the text. */
  lemma PartsSealed(s: string, k: nat)
    requires k < |SplitArguments(s)|
    ensures var part := SplitArguments(s)[k];
            && |part| <= |s| && (forall i :: 0 <= i < |part| ==> !CutsAt(part, i))
            && (k < |SplitArguments(s)| - 1 ==> Sealed(part))
  {
    SplitParts(s);
  }
}
