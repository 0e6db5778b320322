// pkg/expression/parser.go: evaluating $func calls, nested to any depth.

module Expressions {
  import opened Workflow
  import opened Arguments

  datatype Value = Null | Flag(flag: bool) | Number(number: real) | Text(text: string) | Items(items: seq<Value>)
                 | Fields(fields: map<string, Value>)

  datatype Error = UnknownFunction(name: string) | Reported(message: string)

  datatype Result<+T> = Ok(value: T) | Err(error: Error)

  type Function = seq<Value> -> Result<Value>

  /** The built-in functions, the `$` references other than calls ($json, $node, $env and the rest,
      against the current context), and strconv.ParseFloat. */
  datatype Parser = Parser(functions: map<string, Function>, reference: string -> Option<Result<Value>>,
                           parseFloat: string -> Option<real>)

  // ---- Recognising a call ----

  predicate IsSpace(c: char) {
    c == ' ' || c == '\t' || c == '\n' || c == '\r' || c == '\U{0B}' || c == '\U{0C}'
  }

  predicate IsWord(c: char) {
    'a' <= c <= 'z' || 'A' <= c <= 'Z' || '0' <= c <= '9' || c == '_'
  }

  predicate AllWord(s: string) {
    forall i :: 0 <= i < |s| ==> IsWord(s[i])
  }

  function TrimLeft(s: string): (r: string)
    ensures |r| <= |s|
  {
    if |s| > 0 && IsSpace(s[0]) then TrimLeft(s[1..]) else s
  }

  function TrimRight(s: string): (r: string)
    ensures |r| <= |s|
  {
    if |s| > 0 && IsSpace(s[|s| - 1]) then TrimRight(s[..|s| - 1]) else s
  }

  function Trim(s: string): (r: string)
    ensures |r| <= |s|
  {
    TrimRight(TrimLeft(s))
  }

  /** strings.Trim with a one-character cutset: every such character at either end goes. */
  function TrimQuotes(s: string, quote: char): string {
    if |s| > 0 && s[0] == quote then TrimQuotes(s[1..], quote)
    else if |s| > 0 && s[|s| - 1] == quote then TrimQuotes(s[..|s| - 1], quote)
    else s
  }

  function WordLength(s: string): (n: nat)
    ensures n <= |s|
  {
    if |s| > 0 && IsWord(s[0]) then 1 + WordLength(s[1..]) else 0
  }

  const CALL := "$func."

  datatype CallText = CallText(name: string, args: string)

  function Written(call: CallText): string {
    CALL + call.name + "(" + call.args + ")"
  }

  /** The pattern's name is one word, and its argument text is not empty and has no line break. */
  predicate Callable(call: CallText) {
    |call.name| > 0 && AllWord(call.name) && |call.args| > 0 && '\n' !in call.args
  }

  /** Matching funcPattern: a word after the prefix, a parenthesis, and one that ends the text. */
  function MatchCall(e: string): (r: Option<CallText>)
    ensures r.Some? ==> |r.value.args| < |e|
  {
    if |e| < |CALL| || e[..|CALL|] != CALL then None
    else
      var rest := e[|CALL|..];
      var n := WordLength(rest);
      if n == 0 || n + 2 >= |rest| || rest[n] != '(' || rest[|rest| - 1] != ')' || '\n' in rest[n + 1..|rest| - 1] then None
      else Some(CallText(rest[..n], rest[n + 1..|rest| - 1]))
  }

  lemma {:induction false} WordLengthIs(name: string, rest: string)
    requires AllWord(name) && (|rest| > 0 ==> !IsWord(rest[0]))
    ensures WordLength(name + rest) == |name|
  {
    if |name| == 0 {
      assert name + rest == rest;
    } else {
      assert (name + rest)[1..] == name[1..] + rest;
      WordLengthIs(name[1..], rest);
    }
  }

  lemma {:induction false} WordPrefix(s: string)
    ensures AllWord(s[..WordLength(s)])
  {
    if |s| > 0 && IsWord(s[0]) {
      WordPrefix(s[1..]);
      assert s[..WordLength(s)] == [s[0]] + s[1..][..WordLength(s[1..])];
    }
  }

  lemma WrittenMatches(call: CallText)
    requires Callable(call)
    ensures MatchCall(Written(call)) == Some(call)
  {
    var e, tail := Written(call), "(" + call.args + ")";
    var rest := e[|CALL|..];
    assert rest == call.name + tail;
    WordLengthIs(call.name, tail);
    assert rest[..|call.name|] == call.name && rest[|call.name| + 1..|rest| - 1] == call.args;
  }

  lemma MatchedIsWritten(e: string)
    requires MatchCall(e).Some?
    ensures Callable(MatchCall(e).value) && e == Written(MatchCall(e).value)
  {
    var rest, call := e[|CALL|..], MatchCall(e).value;
    WordPrefix(rest);
    assert rest == call.name + "(" + call.args + ")";
    assert e == CALL + rest;
  }

  /** A text is a call exactly when it is written as one, and then in one way only. */
  lemma MatchesWritten(e: string, call: CallText)
    ensures MatchCall(e) == Some(call) <==>
            && e == "$func." + call.name + "(" + call.args + ")"
            && |call.name| > 0 && |call.args| > 0 && '\n' !in call.args
            && forall i :: 0 <= i < |call.name| ==>
                 'a' <= call.name[i] <= 'z' || 'A' <= call.name[i] <= 'Z' || '0' <= call.name[i] <= '9' || call.name[i] == '_'
  {
    if Callable(call) {
      WrittenMatches(call);
    }
    if MatchCall(e).Some? {
      MatchedIsWritten(e);
    }
  }

  // ---- Evaluation ----

  /** An argument that is not a reference. */
  function Literal(p: Parser, part: string): Value {
    if Quoted(part, '"') then Text(TrimQuotes(part, '"'))
    else if Quoted(part, '\'') then Text(TrimQuotes(part, '\''))
    else if p.parseFloat(part).Some? then Number(p.parseFloat(part).value)
    else if part == "true" then Flag(true)
    else if part == "false" then Flag(false)
    else if part == "null" then Null
    else Text(part)
  }

  predicate Quoted(part: string, quote: char) {
    |part| > 0 && part[0] == quote && part[|part| - 1] == quote
  }

  lemma PartsFit(s: string)
    ensures forall k :: 0 <= k < |SplitArguments(s)| ==> |SplitArguments(s)[k]| <= |s|
  {
    forall k | 0 <= k < |SplitArguments(s)| ensures |SplitArguments(s)[k]| <= |s| {
      PartsSealed(s, k);
    }
  }

  function Evaluate(p: Parser, expr: string): Result<Value>
    decreases |expr|, 0, 0
  {
    var e := Trim(expr);
    match MatchCall(e)
    case Some(call) =>
      if call.name !in p.functions then Err(UnknownFunction(call.name))
      else
        PartsFit(call.args);
        (match ValuesOf(p, SplitArguments(call.args), |call.args|)
         case Err(error) => Err(error)
         case Ok(values) => p.functions[call.name](values))
    case None =>
      if p.reference(e).Some? then p.reference(e).value else Ok(Text(e))
  }

  function ArgumentValue(p: Parser, part: string): Result<Value>
    decreases |part|, 1, 0
  {
    if |part| > 0 && part[0] == '$' then Evaluate(p, part) else Ok(Literal(p, part))
  }

  /** The values of the arguments, or the first error from the left. */
  function ValuesOf(p: Parser, parts: seq<string>, bound: nat): (r: Result<seq<Value>>)
    requires forall k :: 0 <= k < |parts| ==> |parts[k]| <= bound
    ensures r.Ok? ==> |r.value| == |parts|
    decreases bound, 2, |parts|
  {
    if |parts| == 0 then Ok([])
    else
      match ValuesOf(p, parts[..|parts| - 1], bound)
      case Err(error) => Err(error)
      case Ok(values) =>
        match ArgumentValue(p, Trim(parts[|parts| - 1]))
        case Err(error) => Err(error)
        case Ok(value) => Ok(values + [value])
  }

  // ---- The evaluator as it is written ----

  method EvaluateExpression(p: Parser, expr: string) returns (r: Result<Value>)
    ensures r == Evaluate(p, expr)
    decreases |expr|, 0
  {
    var e := Trim(expr);
    var call := MatchCall(e);
    if call.Some? {
      r := EvaluateFunction(p, call.value.name, call.value.args);
      return;
    }
    var reference := p.reference(e);
    r := if reference.Some? then reference.value else Ok(Text(e));
  }

  method EvaluateFunction(p: Parser, name: string, argsStr: string) returns (r: Result<Value>)
    ensures r == if name !in p.functions then Err(UnknownFunction(name))
                 else match ValuesOfText(p, argsStr)
                      case Err(error) => Err(error)
                      case Ok(values) => p.functions[name](values)
    decreases |argsStr|, 2
  {
    if name !in p.functions {
      return Err(UnknownFunction(name));
    }
    var args := ParseArguments(p, argsStr);
    if args.Err? {
      return Err(args.error);
    }
    var fn := p.functions[name];
    r := fn(args.value);
  }

  function ValuesOfText(p: Parser, argsStr: string): Result<seq<Value>> {
    PartsFit(argsStr);
    ValuesOf(p, SplitArguments(argsStr), |argsStr|)
  }

  method ParseArguments(p: Parser, argsStr: string) returns (r: Result<seq<Value>>)
    ensures r == ValuesOfText(p, argsStr)
    decreases |argsStr|, 1
  {
    PartsFit(argsStr);
    var parts := SplitText(argsStr);
    var args: seq<Value> := [];
    for i := 0 to |parts|
      invariant ValuesOf(p, parts[..i], |argsStr|) == Ok(args)
    {
      assert parts[..i + 1][..i] == parts[..i];
      var part := Trim(parts[i]);
      var value: Result<Value>;
      if |part| > 0 && part[0] == '$' {
        value := EvaluateExpression(p, part);
      } else {
        value := Ok(Literal(p, part));
      }
      if value.Err? {
        ErrorStays(p, parts, i + 1, |argsStr|);
        return Err(value.error);
      }
      args := args + [value.value];
    }
    assert parts[..|parts|] == parts;
    r := Ok(args);
  }

  lemma {:induction false} ErrorStays(p: Parser, parts: seq<string>, n: nat, bound: nat)
    requires n <= |parts| && (forall k :: 0 <= k < |parts| ==> |parts[k]| <= bound)
    requires ValuesOf(p, parts[..n], bound).Err?
    ensures ValuesOf(p, parts, bound) == ValuesOf(p, parts[..n], bound)
    decreases |parts|
  {
    if n < |parts| {
      var front := parts[..|parts| - 1];
      assert front[..n] == parts[..n];
      ErrorStays(p, front, n, bound);
    } else {
      assert parts[..n] == parts;
    }
  }

  // ---- Nested calls mean what they say ----

  /** Each argument of a call stands between white space of its own. */
  datatype Term = Leaf(text: string) | Call(name: string, args: seq<Argument>)

  datatype Argument = Argument(before: string, term: Term, after: string)

  function Render(t: Term): string
  {
    match t
    case Leaf(text) => text
    case Call(name, args) => Written(CallText(name, Join(RenderAll(args))))
  }

  function RenderAll(args: seq<Argument>): (r: seq<string>)
    ensures |r| == |args|
  {
    if |args| == 0 then []
    else
      var a := args[|args| - 1];
      RenderAll(args[..|args| - 1]) + [a.before + Render(a.term) + a.after]
  }

  /** The value of a nested call, read off its structure. */
  function Meaning(p: Parser, t: Term): Result<Value> {
    match t
    case Leaf(text) => ArgumentValue(p, text)
    case Call(name, args) =>
      if name !in p.functions then Err(UnknownFunction(name))
      else
        match MeaningAll(p, args)
        case Err(error) => Err(error)
        case Ok(values) => p.functions[name](values)
  }

  function MeaningAll(p: Parser, args: seq<Argument>): Result<seq<Value>> {
    if |args| == 0 then Ok([])
    else
      match MeaningAll(p, args[..|args| - 1])
      case Err(error) => Err(error)
      case Ok(values) =>
        match Meaning(p, args[|args| - 1].term)
        case Err(error) => Err(error)
        case Ok(value) => Ok(values + [value])
  }

  function DepthOf(st: Scanner): int {
    st.depth
  }

  /** Read at bracket depth `d`, the text never goes below it, and ends there outside any string. */
  predicate Within(d: int, a: string) {
    ScanAll(Outside(d), a) == Outside(d) && forall i :: 0 <= i <= |a| ==> DepthOf(ScanAll(Outside(d), a[..i])) >= d
  }

  predicate NoCut(a: string) {
    forall i :: 0 <= i < |a| ==> !CutsAt(a, i)
  }

  /** Strings closed, brackets matched, no comma outside both, no line break. */
  predicate Loose(text: string) {
    |text| > 0 && Within(0, text) && NoCut(text) && '\n' !in text
  }

  /** The same, and nothing to trim. */
  predicate Tidy(text: string) {
    Loose(text) && Firm(text)
  }

  /** White space without a line break. */
  predicate Blank(text: string) {
    forall i :: 0 <= i < |text| ==> text[i] == ' ' || text[i] == '\t' || text[i] == '\r' || text[i] == '\U{0B}' || text[i] == '\U{0C}'
  }

  predicate Firm(text: string) {
    |text| > 0 && !IsSpace(text[0]) && !IsSpace(text[|text| - 1])
  }

  predicate Proper(t: Term) {
    match t
    case Leaf(text) => Tidy(text)
    case Call(name, args) =>
      && |name| > 0 && AllWord(name) && |args| > 0
      && forall i :: 0 <= i < |args| ==> Blank(args[i].before) && Proper(args[i].term) && Blank(args[i].after)
  }

  function Shift(st: Scanner, d: int): Scanner {
    st.(depth := st.depth + d)
  }

  lemma {:induction false} ScanShift(a: string, d: int)
    ensures ScanAll(Outside(d), a) == Shift(ScanAll(START, a), d)
  {
    if |a| > 0 {
      ScanShift(a[..|a| - 1], d);
    }
  }

  lemma WithinAt(d: int, a: string)
    requires Within(0, a)
    ensures Within(d, a)
  {
    ScanShift(a, d);
    forall i | 0 <= i <= |a| ensures DepthOf(ScanAll(Outside(d), a[..i])) >= d {
      ScanShift(a[..i], d);
    }
  }

  lemma WithinAppend(d: int, a: string, b: string)
    requires Within(d, a) && Within(d, b)
    ensures Within(d, a + b)
  {
    ScanAppend(Outside(d), a, b);
    forall i | 0 <= i <= |a + b| ensures DepthOf(ScanAll(Outside(d), (a + b)[..i])) >= d {
      if i <= |a| {
        assert (a + b)[..i] == a[..i];
      } else {
        assert (a + b)[..i] == a + b[..i - |a|];
        ScanAppend(Outside(d), a, b[..i - |a|]);
      }
    }
  }

  predicate IsPlain(c: char) {
    !IsQuote(c) && !IsOpening(c) && !IsClosing(c)
  }

  lemma {:induction false} PlainWithin(d: int, a: string)
    requires forall i :: 0 <= i < |a| ==> IsPlain(a[i])
    ensures Within(d, a) && forall i :: 0 <= i <= |a| ==> ScanAll(Outside(d), a[..i]) == Outside(d)
  {
    if |a| > 0 {
      var front := a[..|a| - 1];
      PlainWithin(d, front);
      forall i | 0 <= i <= |a| ensures ScanAll(Outside(d), a[..i]) == Outside(d) {
        if i < |a| {
          assert a[..i] == front[..i];
        } else {
          assert a[..i] == a && front[..|front|] == front;
        }
      }
      assert a[..|a|] == a;
    } else {
      assert a[..0] == a;
    }
  }

  lemma {:induction false} JoinWithin(d: int, parts: seq<string>)
    requires forall i :: 0 <= i < |parts| ==> Within(0, parts[i])
    ensures Within(d, Join(parts))
  {
    if |parts| == 0 {
      PlainWithin(d, "");
    } else {
      WithinAt(d, parts[|parts| - 1]);
      if |parts| > 1 {
        JoinWithin(d, parts[..|parts| - 1]);
        PlainWithin(d, ",");
        WithinAppend(d, Join(parts[..|parts| - 1]), ",");
        WithinAppend(d, Join(parts[..|parts| - 1]) + ",", parts[|parts| - 1]);
      }
    }
  }

  /** Brackets shield what is between them: no comma in there is at the top level. */
  lemma BracketedTidy(inner: string)
    requires Within(1, inner)
    ensures Within(0, "(" + inner + ")") && NoCut("(" + inner + ")")
  {
    var a := "(" + inner + ")";
    assert "("[..0] == "";
    assert ScanAll(START, "(") == Outside(1);
    forall i | 0 <= i < |a| ensures DepthOf(ScanAll(START, a[..i])) >= (if i == 0 then 0 else 1) {
      if i > 0 {
        assert a[..i] == "(" + inner[..i - 1];
        ScanAppend(START, "(", inner[..i - 1]);
      }
    }
    ScanAppend(START, "(", inner);
    assert a[..|a| - 1] == "(" + inner;
    assert a[..|a|] == a;
  }

  lemma HeadTidy(name: string)
    requires AllWord(name)
    ensures Within(0, CALL + name) && NoCut(CALL + name)
  {
    var a := CALL + name;
    forall i | 0 <= i < |a| ensures IsPlain(a[i]) && a[i] != ',' {
      assert a[i] == if i < |CALL| then CALL[i] else name[i - |CALL|];
    }
    PlainWithin(0, a);
  }

  lemma NoCutAppend(a: string, b: string)
    requires ScanAll(START, a) == START && NoCut(a) && NoCut(b)
    ensures NoCut(a + b)
  {
    forall i | 0 <= i < |a + b| ensures !CutsAt(a + b, i) {
      if i < |a| {
        assert (a + b)[..i] == a[..i] && !CutsAt(a, i);
      } else {
        assert (a + b)[..i] == a + b[..i - |a|];
        ScanAppend(START, a, b[..i - |a|]);
        assert !CutsAt(b, i - |a|);
      }
    }
  }

  lemma {:induction false} JoinKeeps(parts: seq<string>)
    requires |parts| > 0 && forall i :: 0 <= i < |parts| ==> |parts[i]| > 0 && '\n' !in parts[i]
    ensures |Join(parts)| > 0 && '\n' !in Join(parts)
  {
    if |parts| > 1 {
      JoinKeeps(parts[..|parts| - 1]);
    }
  }

  lemma CallWithin(name: string, inner: string)
    requires AllWord(name) && Within(1, inner)
    ensures Within(0, CALL + name + ("(" + inner + ")")) && NoCut(CALL + name + ("(" + inner + ")"))
  {
    BracketedTidy(inner);
    HeadTidy(name);
    WithinAppend(0, CALL + name, "(" + inner + ")");
    NoCutAppend(CALL + name, "(" + inner + ")");
  }

  lemma CallFirm(name: string, inner: string)
    requires AllWord(name) && '\n' !in inner
    ensures Firm(CALL + name + ("(" + inner + ")")) && '\n' !in CALL + name + ("(" + inner + ")")
  {
  }

  lemma JoinLoose(parts: seq<string>)
    requires |parts| > 0 && forall i :: 0 <= i < |parts| ==> Loose(parts[i])
    ensures Within(1, Join(parts)) && |Join(parts)| > 0 && '\n' !in Join(parts)
  {
    assert forall i :: 0 <= i < |parts| ==> Within(0, parts[i]) && |parts[i]| > 0 && '\n' !in parts[i];
    JoinWithin(1, parts);
    JoinKeeps(parts);
  }

  lemma WrittenTidy(name: string, inner: string)
    requires |name| > 0 && AllWord(name) && Within(1, inner) && |inner| > 0 && '\n' !in inner
    ensures Tidy(Written(CallText(name, inner)))
  {
    CallWithin(name, inner);
    CallFirm(name, inner);
    assert Written(CallText(name, inner)) == CALL + name + ("(" + inner + ")");
  }

  lemma BlankWithin(text: string)
    requires Blank(text)
    ensures Within(0, text) && NoCut(text) && '\n' !in text
  {
    PlainWithin(0, text);
  }

  lemma PaddedLoose(before: string, text: string, after: string)
    requires Blank(before) && Tidy(text) && Blank(after)
    ensures Loose(before + text + after)
  {
    BlankWithin(before);
    BlankWithin(after);
    WithinAppend(0, before, text);
    WithinAppend(0, before + text, after);
    NoCutAppend(before, text);
    NoCutAppend(before + text, after);
  }

  predicate ProperArgs(args: seq<Argument>) {
    forall i :: 0 <= i < |args| ==> Blank(args[i].before) && Proper(args[i].term) && Blank(args[i].after)
  }

  lemma {:induction false} RenderTidy(t: Term)
    requires Proper(t)
    ensures Tidy(Render(t))
  {
    if t.Call? {
      RenderAllLoose(t.args);
      JoinLoose(RenderAll(t.args));
      WrittenTidy(t.name, Join(RenderAll(t.args)));
    }
  }

  lemma {:induction false} RenderAllLoose(args: seq<Argument>)
    requires ProperArgs(args)
    ensures forall i :: 0 <= i < |args| ==> Loose(RenderAll(args)[i])
  {
    if |args| > 0 {
      var a := args[|args| - 1];
      RenderAllLoose(args[..|args| - 1]);
      RenderTidy(a.term);
      PaddedLoose(a.before, Render(a.term), a.after);
    }
  }

  lemma {:induction false} TrimStarts(before: string, s: string, after: string)
    requires Blank(before) && Firm(s)
    ensures TrimLeft(before + s + after) == s + after
  {
    if |before| > 0 {
      assert (before + s + after)[1..] == before[1..] + s + after;
      TrimStarts(before[1..], s, after);
    } else {
      assert before + s + after == s + after;
    }
  }

  lemma {:induction false} TrimEnds(s: string, after: string)
    requires Firm(s) && Blank(after)
    ensures TrimRight(s + after) == s
  {
    if |after| > 0 {
      assert (s + after)[..|s + after| - 1] == s + after[..|after| - 1];
      TrimEnds(s, after[..|after| - 1]);
    } else {
      assert s + after == s;
    }
  }

  /** Trimming takes away exactly the white space around a text that neither begins nor ends with any. */
  lemma TrimPadded(before: string, s: string, after: string)
    requires Blank(before) && Firm(s) && Blank(after)
    ensures Trim(before + s + after) == s
  {
    TrimStarts(before, s, after);
    TrimEnds(s, after);
  }

  lemma SplitLoose(parts: seq<string>)
    requires |parts| > 0 && forall i :: 0 <= i < |parts| ==> Loose(parts[i])
    ensures SplitArguments(Join(parts)) == parts
  {
    forall i | 0 <= i < |parts| ensures Sealed(parts[i]) {
      assert Loose(parts[i]);
    }
    SplitJoin(parts);
  }

  /** Evaluating the text of a call, nested to any depth and with any white space around the call and its
      arguments, gives the value of its structure. */
  lemma {:induction false} CallMeans(p: Parser, before: string, t: Term, after: string)
    requires Proper(t) && t.Call? && Blank(before) && Blank(after)
    ensures Evaluate(p, before + Render(t) + after) == Meaning(p, t)
    decreases t
  {
    var parts := RenderAll(t.args);
    RenderAllLoose(t.args);
    JoinLoose(parts);
    WrittenTidy(t.name, Join(parts));
    TrimPadded(before, Render(t), after);
    WrittenMatches(CallText(t.name, Join(parts)));
    SplitLoose(parts);
    PartsFit(Join(parts));
    ArgumentsMean(p, t.args, |Join(parts)|);
  }

  lemma {:induction false} ArgumentsMean(p: Parser, args: seq<Argument>, bound: nat)
    requires ProperArgs(args) && forall i :: 0 <= i < |args| ==> |RenderAll(args)[i]| <= bound
    ensures ValuesOf(p, RenderAll(args), bound) == MeaningAll(p, args)
    decreases args
  {
    if |args| > 0 {
      var front, last := args[..|args| - 1], args[|args| - 1];
      forall i | 0 <= i < |front| ensures |RenderAll(front)[i]| <= bound {
        assert RenderAll(args)[i] == RenderAll(front)[i];
      }
      ArgumentsMean(p, front, bound);
      assert RenderAll(args)[..|args| - 1] == RenderAll(front);
      ArgumentMeans(p, last);
    }
  }

  lemma {:induction false} ArgumentMeans(p: Parser, a: Argument)
    requires Blank(a.before) && Proper(a.term) && Blank(a.after)
    ensures ArgumentValue(p, Trim(a.before + Render(a.term) + a.after)) == Meaning(p, a.term)
    decreases a
  {
    RenderTidy(a.term);
    TrimPadded(a.before, Render(a.term), a.after);
    if a.term.Call? {
      CallMeans(p, "", a.term, "");
      assert "" + Render(a.term) + "" == Render(a.term);
    }
  }

  // ---- What the leaves mean ----

  /** What is not a call is a reference, or else stands for itself without the white space around it. */
  lemma ReferenceMeans(p: Parser, before: string, e: string, after: string)
    requires Blank(before) && Firm(e) && Blank(after) && MatchCall(e).None?
    ensures Evaluate(p, before + e + after) == if p.reference(e).Some? then p.reference(e).value else Ok(Text(e))
  {
    TrimPadded(before, e, after);
  }

  predicate AllAre(s: string, q: char) {
    forall i :: 0 <= i < |s| ==> s[i] == q
  }

  lemma {:induction false} QuotesTrimmed(q: char, left: string, inner: string, right: string)
    requires AllAre(left, q) && AllAre(right, q) && (|inner| > 0 ==> inner[0] != q && inner[|inner| - 1] != q)
    ensures TrimQuotes(left + inner + right, q) == inner
    decreases |left| + |right|
  {
    var s := left + inner + right;
    if |left| > 0 {
      assert s[1..] == left[1..] + inner + right;
      QuotesTrimmed(q, left[1..], inner, right);
    } else if |right| > 0 {
      if |inner| == 0 {
        assert s == right && s[1..] == [] + inner + right[1..];
        QuotesTrimmed(q, [], inner, right[1..]);
      } else {
        assert s[0] == inner[0] && s[..|s| - 1] == left + inner + right[..|right| - 1];
        QuotesTrimmed(q, left, inner, right[..|right| - 1]);
      }
    } else {
      assert s == inner;
    }
  }

  /** An argument between quotes of either kind, however many, is the text between them. */
  lemma QuotedMeans(p: Parser, q: char, left: string, inner: string, right: string)
    requires (q == '"' || q == '\'') && AllAre(left, q) && AllAre(right, q)
    requires |left| > 0 && (|right| > 0 || |inner| == 0) && (|inner| > 0 ==> inner[0] != q && inner[|inner| - 1] != q)
    ensures ArgumentValue(p, left + inner + right) == Ok(Text(inner))
  {
    var part := left + inner + right;
    QuotesTrimmed(q, left, inner, right);
    assert part[0] == q && part[|part| - 1] == q;
  }

  /** Any other argument is a reference when it starts with a dollar sign, a number when it reads as one,
      true, false or null, and failing all that the text it is. */
  lemma PlainMeans(p: Parser, part: string)
    requires !Quoted(part, '"') && !Quoted(part, '\'')
    ensures |part| > 0 && part[0] == '$' ==> ArgumentValue(p, part) == Evaluate(p, part)
    ensures !(|part| > 0 && part[0] == '$') ==>
              && (forall x :: p.parseFloat(part) == Some(x) ==> ArgumentValue(p, part) == Ok(Number(x)))
              && (p.parseFloat(part).None? ==>
                    ArgumentValue(p, part) == Ok(if part == "true" then Flag(true) else if part == "false" then Flag(false)
                                                 else if part == "null" then Null else Text(part)))
  {
  }

  /** A call without arguments is never recognised: its text is taken as it stands. */
  lemma EmptyCallIgnored(p: Parser, name: string)
    requires AllWord(name)
    ensures var e := CALL + name + "()";
            Evaluate(p, e) == if p.reference(e).Some? then p.reference(e).value else Ok(Text(e))
  {
    var e := CALL + name + "()";
    TrimPadded("", e, "");
    assert "" + e + "" == e;
    assert e[|CALL|..] == name + "()";
    WordLengthIs(name, "()");
  }
}
