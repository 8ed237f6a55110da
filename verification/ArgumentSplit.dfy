/** Splitting the text of a call's arguments at the commas outside strings and brackets. */
module ArgumentSplit {

  // ---- stripping

  /** The whitespace characters that `str.strip` removes. */
  predicate IsSpace(c: char) {
    var u := c as int;
    || 0x09 <= u <= 0x0d || 0x1c <= u <= 0x20 || u == 0x85 || u == 0xa0 || u == 0x1680 || 0x2000 <= u <= 0x200a
    || u == 0x2028 || u == 0x2029 || u == 0x202f || u == 0x205f || u == 0x3000
  }

  predicate AllSpace(s: string) {
    forall i :: 0 <= i < |s| ==> IsSpace(s[i])
  }

  predicate Trimmed(s: string) {
    s != [] ==> !IsSpace(s[0]) && !IsSpace(s[|s| - 1])
  }

  function StripLeft(s: string): string {
    if s != [] && IsSpace(s[0]) then StripLeft(s[1..]) else s
  }

  function StripRight(s: string): string {
    if s != [] && IsSpace(s[|s| - 1]) then StripRight(s[..|s| - 1]) else s
  }

  function Strip(s: string): string {
    StripRight(StripLeft(s))
  }

  lemma {:induction false} StripLeftPad(pad: string, s: string)
    requires AllSpace(pad) && (s != [] ==> !IsSpace(s[0]))
    ensures StripLeft(pad + s) == s
    decreases |pad|
  {
    if pad == [] {
      assert pad + s == s;
    } else {
      StripLeftPad(pad[1..], s);
      assert (pad + s)[1..] == pad[1..] + s;
    }
  }

  lemma {:induction false} StripRightPad(s: string, pad: string)
    requires AllSpace(pad) && (s != [] ==> !IsSpace(s[|s| - 1]))
    ensures StripRight(s + pad) == s
    decreases |pad|
  {
    if pad == [] {
      assert s + pad == s;
    } else {
      StripRightPad(s, pad[..|pad| - 1]);
      assert (s + pad)[..|s + pad| - 1] == s + pad[..|pad| - 1];
    }
  }

  /** Whitespace around a trimmed text is what is removed. */
  lemma {:induction false} StripPadded(left: string, s: string, right: string)
    requires AllSpace(left) && AllSpace(right) && Trimmed(s)
    ensures Strip(left + s + right) == s
  {
    if s == [] {
      assert left + s + right == (left + right) + [];
      StripLeftPad(left + right, []);
    } else {
      assert left + s + right == left + (s + right);
      StripLeftPad(left, s + right);
      StripRightPad(s, right);
    }
  }

  // ---- the scanner

  predicate IsOpen(c: char) {
    c == '{' || c == '(' || c == '['
  }

  predicate IsClose(c: char) {
    c == '}' || c == ')' || c == ']'
  }

  /** `cur` is the text since the last split, `prev` the character just seen. */
  datatype Scan = Scan(inString: bool, bracket: int, prev: char, cur: string, out: seq<string>)

  const START := Scan(false, 0, ' ', [], [])

  function Step(s: Scan, c: char): Scan {
    var inString := if s.inString then !(c == '"' && s.prev != '\\') else c == '"';
    if inString then s.(inString := true, prev := c, cur := s.cur + [c])
    else
      var bracket := s.bracket + (if IsOpen(c) then 1 else 0) - (if IsClose(c) then 1 else 0);
      if bracket == 0 && c == ',' then Scan(false, bracket, c, [], s.out + [Strip(s.cur)])
      else Scan(false, bracket, c, s.cur + [c], s.out)
  }

  function Feed(s: Scan, text: string): Scan {
    if text == [] then s else Step(Feed(s, text[..|text| - 1]), text[|text| - 1])
  }

  function Parse(args: string): seq<string> {
    var s := Feed(START, args);
    s.out + [Strip(s.cur)]
  }

  /** The scanner state that the loop variables stand for before character i. */
  predicate Stands(s: Scan, args: string, i: nat, start: nat, bracket: int, inString: bool, out: seq<string>) {
    && start <= i <= |args|
    && s.inString == inString && s.bracket == bracket && s.out == out && s.cur == args[start..i]
    && (if i > 0 then s.prev == args[i - 1] else !inString)
  }

  lemma {:induction false} StandsNext(s: Scan, args: string, i: nat, start: nat, bracket: int, inString: bool,
                                      out: seq<string>)
    requires Stands(s, args, i, start, bracket, inString, out) && i < |args|
    ensures var c, t := args[i], Step(s, args[i]);
      if (if inString then !(c == '"' && args[i - 1] != '\\') else c == '"') then
        Stands(t, args, i + 1, start, bracket, true, out)
      else
        var bracket' := bracket + (if IsOpen(c) then 1 else 0) - (if IsClose(c) then 1 else 0);
        if bracket' == 0 && c == ',' then
          Stands(t, args, i + 1, i + 1, bracket', false, out + [Strip(args[start..i])])
        else Stands(t, args, i + 1, start, bracket', false, out)
  {
    assert args[start..i] + [args[i]] == args[start..i + 1];
  }

  /** The body of the loop. */
  method ScanChar(args: string, i: nat, start: nat, bracket: int, inString: bool, argsSplit: seq<string>, ghost s: Scan)
    returns (start': nat, bracket': int, inString': bool, argsSplit': seq<string>)
    requires Stands(s, args, i, start, bracket, inString, argsSplit) && i < |args|
    ensures Stands(Step(s, args[i]), args, i + 1, start', bracket', inString', argsSplit')
  {
    StandsNext(s, args, i, start, bracket, inString, argsSplit);
    start', bracket', inString', argsSplit' := start, bracket, inString, argsSplit;
    if inString && args[i] == '"' && args[i - 1] != '\\' {
      inString' := false;
    } else if !inString && args[i] == '"' {
      inString' := true;
    }
    if inString' {
      return;
    }
    if IsOpen(args[i]) {
      bracket' := bracket' + 1;
    }
    if IsClose(args[i]) {
      bracket' := bracket' - 1;
    }
    if bracket' == 0 && args[i] == ',' {
      argsSplit' := argsSplit + [Strip(args[start..i])];
      start' := i + 1;
    }
  }

  method ParseArguments(args: string) returns (argsSplit: seq<string>)
    ensures argsSplit == Parse(args)
  {
    argsSplit := [];
    var start: nat, bracket: int, inString: bool := 0, 0, false;
    ghost var s := START;
    for i := 0 to |args|
      invariant s == Feed(START, args[..i])
      invariant Stands(s, args, i, start, bracket, inString, argsSplit)
    {
      assert args[..i + 1][..i] == args[..i];
      start, bracket, inString, argsSplit := ScanChar(args, i, start, bracket, inString, argsSplit, s);
      s := Step(s, args[i]);
    }
    assert args[..|args|] == args && args[start..] == args[start..|args|];
    argsSplit := argsSplit + [Strip(args[start..])];
  }

  lemma {:induction false} FeedAppend(s: Scan, a: string, b: string)
    ensures Feed(s, a + b) == Feed(Feed(s, a), b)
    decreases |b|
  {
    if b == [] {
      assert a + b == a;
    } else {
      FeedAppend(s, a, b[..|b| - 1]);
      assert (a + b)[..|a + b| - 1] == a + b[..|b| - 1];
    }
  }

  lemma {:induction false} FeedOne(s: Scan, c: char)
    ensures Feed(s, [c]) == Step(s, c)
  {
  }

  // ---- the texts an argument can have

  /** A character of a string literal, plain or after a backslash. */
  datatype Letter = One(c: char) | Escaped(c: char)

  datatype Pieces =
    | End
    | Plain(c: char, rest: Pieces)
    | Literal(body: seq<Letter>, rest: Pieces)
    | Group(open: char, inner: Pieces, close: char, rest: Pieces)

  function BodyText(body: seq<Letter>): string {
    if body == [] then []
    else
      var last := body[|body| - 1];
      BodyText(body[..|body| - 1]) + (if last.One? then [last.c] else ['\\', last.c])
  }

  function Text(p: Pieces): string {
    match p
    case End => []
    case Plain(c, rest) => [c] + Text(rest)
    case Literal(body, rest) => "\"" + BodyText(body) + "\"" + Text(rest)
    case Group(open, inner, close, rest) => [open] + Text(inner) + [close] + Text(rest)
  }

  /** Quotes and backslashes are escaped. */
  predicate GoodBody(body: seq<Letter>) {
    forall i :: 0 <= i < |body| && body[i].One? ==> body[i].c != '"' && body[i].c != '\\'
  }

  /** The literal's last letter is not an escaped backslash. */
  predicate EndsPlainly(body: seq<Letter>) {
    body != [] ==> body[|body| - 1] != Escaped('\\')
  }

  /** Well-formed pieces; commas stand only inside brackets or literals. */
  predicate WellFormed(p: Pieces, nested: bool) {
    match p
    case End => true
    case Plain(c, rest) =>
      c != '"' && !IsOpen(c) && !IsClose(c) && (c == ',' ==> nested) && WellFormed(rest, nested)
    case Literal(body, rest) => GoodBody(body) && EndsPlainly(body) && WellFormed(rest, nested)
    case Group(open, inner, close, rest) =>
      IsOpen(open) && IsClose(close) && WellFormed(inner, true) && WellFormed(rest, nested)
  }

  /** Scanning a literal's body stays inside the string. */
  lemma {:induction false} FeedBody(s: Scan, body: seq<Letter>)
    requires s.inString && s.prev != '\\' && GoodBody(body)
    ensures Feed(s, BodyText(body)) ==
      s.(cur := s.cur + BodyText(body), prev := if body == [] then s.prev else body[|body| - 1].c)
    decreases |body|
  {
    if body == [] {
      assert s.cur + [] == s.cur;
    } else {
      var k := |body| - 1;
      var before, last := body[..k], body[k];
      FeedBody(s, before);
      if last.One? {
        FeedLetter(s, before, last.c);
      } else {
        FeedEscape(s, before, last.c);
      }
    }
  }

  lemma {:induction false} FeedLetter(s: Scan, before: seq<Letter>, c: char)
    requires s.inString && c != '"'
    requires Feed(s, BodyText(before)) == s.(cur := s.cur + BodyText(before), prev := Feed(s, BodyText(before)).prev)
    ensures Feed(s, BodyText(before) + [c]) == s.(cur := s.cur + (BodyText(before) + [c]), prev := c)
  {
    var text := BodyText(before);
    FeedAppend(s, text, [c]);
    FeedOne(Feed(s, text), c);
    assert s.cur + text + [c] == s.cur + (text + [c]);
  }

  lemma {:induction false} FeedEscape(s: Scan, before: seq<Letter>, c: char)
    requires s.inString && Feed(s, BodyText(before)).inString
    requires Feed(s, BodyText(before)) == s.(cur := s.cur + BodyText(before), prev := Feed(s, BodyText(before)).prev)
    ensures Feed(s, BodyText(before) + ['\\', c]) == s.(cur := s.cur + (BodyText(before) + ['\\', c]), prev := c)
  {
    var text := BodyText(before);
    FeedAppend(s, text, ['\\', c]);
    FeedPair(Feed(s, text), c);
    assert s.cur + text + ['\\', c] == s.cur + (text + ['\\', c]);
  }

  lemma {:induction false} FeedPair(s: Scan, c: char)
    requires s.inString
    ensures Feed(s, ['\\', c]) == s.(cur := s.cur + ['\\', c], prev := c)
  {
    assert ['\\', c] == ['\\'] + [c];
    FeedAppend(s, ['\\'], [c]);
    FeedOne(s, '\\');
    FeedOne(Step(s, '\\'), c);
    assert s.cur + ['\\'] + [c] == s.cur + ['\\', c];
  }

  /** The scanner leaves a literal at its closing quote if and only if it does not end with an escaped backslash. */
  lemma {:induction false} LiteralCloses(s: Scan, body: seq<Letter>)
    requires !s.inString && GoodBody(body)
    ensures var text := "\"" + BodyText(body) + "\"";
      Feed(s, text) == s.(inString := !EndsPlainly(body), cur := s.cur + text, prev := '"')
  {
    var text := "\"" + BodyText(body) + "\"";
    var s1 := Step(s, '"');
    FeedOne(s, '"');
    FeedBody(s1, body);
    FeedAppend(s, "\"", BodyText(body));
    FeedAppend(s, "\"" + BodyText(body), "\"");
    FeedOne(Feed(s1, BodyText(body)), '"');
    assert s.cur + ['"'] + BodyText(body) + ['"'] == s.cur + text;
    assert body != [] && body[|body| - 1].One? ==> body[|body| - 1].c != '\\';
  }

  /** Well-formed pieces pass through the scanner unsplit. */
  lemma {:induction false} FeedPieces(s: Scan, p: Pieces, nested: bool) returns (s': Scan)
    requires !s.inString && WellFormed(p, nested) && s.bracket >= (if nested then 1 else 0)
    ensures s' == Feed(s, Text(p)) && s' == s.(cur := s.cur + Text(p), prev := s'.prev)
    decreases p, 0
  {
    match p
    case End =>
      assert s.cur + [] == s.cur;
      s' := s;
    case Plain(c, rest) =>
      FeedOne(s, c);
      s' := FeedPieces(Step(s, c), rest, nested);
      FeedThen(s, [c], Text(rest));
    case Literal(body, rest) =>
      var text := "\"" + BodyText(body) + "\"";
      LiteralCloses(s, body);
      s' := FeedPieces(Feed(s, text), rest, nested);
      FeedThen(s, text, Text(rest));
    case Group(open, inner, close, rest) =>
      var s1 := FeedGroup(s, open, inner, close);
      s' := FeedPieces(s1, rest, nested);
      FeedThen(s, [open] + Text(inner) + [close], Text(rest));
  }

  lemma {:induction false} FeedThen(s: Scan, a: string, b: string)
    ensures Feed(s, a + b) == Feed(Feed(s, a), b) && s.cur + a + b == s.cur + (a + b)
  {
    FeedAppend(s, a, b);
  }

  lemma {:induction false} FeedGroup(s: Scan, open: char, inner: Pieces, close: char) returns (s': Scan)
    requires !s.inString && s.bracket >= 0 && IsOpen(open) && IsClose(close) && WellFormed(inner, true)
    ensures var text := [open] + Text(inner) + [close];
      s' == Feed(s, text) && s' == s.(cur := s.cur + text, prev := s'.prev)
    decreases inner, 1
  {
    var s1 := Step(s, open);
    FeedOne(s, open);
    var s2 := FeedPieces(s1, inner, true);
    FeedThen(s, [open], Text(inner));
    FeedOne(s2, close);
    FeedThen(s, [open] + Text(inner), [close]);
    s' := Step(s2, close);
  }

  // ---- joined arguments

  /** One argument with the whitespace around it. */
  datatype Argument = Argument(left: string, value: Pieces, right: string)

  predicate GoodArgument(a: Argument) {
    AllSpace(a.left) && AllSpace(a.right) && WellFormed(a.value, false) && Trimmed(Text(a.value))
  }

  function Padded(a: Argument): string {
    a.left + Text(a.value) + a.right
  }

  function Joined(args: seq<Argument>): string
    requires args != []
  {
    var k := |args| - 1;
    if k == 0 then Padded(args[0]) else Joined(args[..k]) + [','] + Padded(args[k])
  }

  function Values(args: seq<Argument>): seq<string> {
    if args == [] then [] else Values(args[..|args| - 1]) + [Text(args[|args| - 1].value)]
  }

  predicate GoodArguments(args: seq<Argument>) {
    forall i :: 0 <= i < |args| ==> GoodArgument(args[i])
  }

  lemma {:induction false} FeedSpace(s: Scan, pad: string)
    requires !s.inString && AllSpace(pad)
    ensures Feed(s, pad) == s.(cur := s.cur + pad, prev := Feed(s, pad).prev)
    decreases |pad|
  {
    if pad == [] {
      assert s.cur + [] == s.cur;
    } else {
      var k := |pad| - 1;
      FeedSpace(s, pad[..k]);
      assert IsSpace(pad[k]);
      assert s.cur + pad[..k] + [pad[k]] == s.cur + pad;
    }
  }

  lemma {:induction false} FeedArgument(s: Scan, a: Argument)
    requires !s.inString && s.bracket == 0 && s.cur == [] && GoodArgument(a)
    ensures Feed(s, Padded(a)) == s.(cur := Padded(a), prev := Feed(s, Padded(a)).prev)
    ensures Strip(Padded(a)) == Text(a.value)
  {
    var s1 := Feed(s, a.left);
    FeedSpace(s, a.left);
    var s2 := FeedPieces(s1, a.value, false);
    FeedThen(s, a.left, Text(a.value));
    FeedSpace(s2, a.right);
    FeedThen(s, a.left + Text(a.value), a.right);
    StripPadded(a.left, Text(a.value), a.right);
  }

  lemma {:induction false} FeedJoined(args: seq<Argument>)
    requires args != [] && GoodArguments(args)
    ensures var s, k := Feed(START, Joined(args)), |args| - 1;
      !s.inString && s.bracket == 0 && s.cur == Padded(args[k]) && s.out == Values(args[..k])
    decreases |args|
  {
    var k := |args| - 1;
    if k == 0 {
      FeedArgument(START, args[0]);
    } else {
      FeedJoined(args[..k]);
      assert args[..k][k - 1] == args[k - 1];
      FeedNext(Joined(args[..k]), args[k - 1], args[k]);
    }
  }

  lemma {:induction false} FeedNext(text: string, last: Argument, next: Argument)
    requires GoodArgument(last) && GoodArgument(next)
    requires var s := Feed(START, text);
      !s.inString && s.bracket == 0 && s.cur == Padded(last)
    ensures var s := Feed(START, text + [','] + Padded(next));
      !s.inString && s.bracket == 0 && s.cur == Padded(next) && s.out == Feed(START, text).out + [Text(last.value)]
  {
    var s := Feed(START, text);
    FeedOne(s, ',');
    FeedThen(START, text, [',']);
    FeedArgument(START, last);
    FeedArgument(Step(s, ','), next);
    FeedThen(START, text + [','], Padded(next));
  }

  /** Splitting undoes joining: the arguments come back, stripped, whatever is nested or quoted in them. */
  lemma {:induction false} ParseJoined(args: seq<Argument>)
    requires args != [] && GoodArguments(args)
    ensures Parse(Joined(args)) == Values(args)
  {
    var k := |args| - 1;
    FeedJoined(args);
    FeedArgument(START, args[k]);
  }

  // ---- literals that are not seen to end

  lemma {:induction false} FeedQuoted(s: Scan, rest: string)
    requires s.inString && '"' !in rest
    ensures Feed(s, rest) == s.(cur := s.cur + rest, prev := Feed(s, rest).prev)
    decreases |rest|
  {
    if rest == [] {
      assert s.cur + [] == s.cur;
    } else {
      var k := |rest| - 1;
      FeedQuoted(s, rest[..k]);
      assert s.cur + rest[..k] + [rest[k]] == s.cur + rest;
    }
  }

  /** Well-formed but for one literal, the last, which ends with an escaped backslash; no quote follows it. */
  predicate Unclosed(p: Pieces, nested: bool) {
    match p
    case End => false
    case Plain(c, rest) =>
      c != '"' && !IsOpen(c) && !IsClose(c) && (c == ',' ==> nested) && Unclosed(rest, nested)
    case Literal(body, rest) =>
      GoodBody(body) && if EndsPlainly(body) then Unclosed(rest, nested)
                        else WellFormed(rest, nested) && '"' !in Text(rest)
    case Group(open, inner, close, rest) =>
      && IsOpen(open) && IsClose(close)
      && if WellFormed(inner, true) then Unclosed(rest, nested)
         else Unclosed(inner, true) && WellFormed(rest, nested) && '"' !in Text(rest)
  }

  /** The scanner is still inside the string at the end of such pieces, and has not split anything. */
  lemma {:induction false} FeedUnclosed(s: Scan, p: Pieces, nested: bool) returns (s': Scan)
    requires !s.inString && Unclosed(p, nested) && s.bracket >= (if nested then 1 else 0)
    ensures s' == Feed(s, Text(p)) && s'.inString && s'.cur == s.cur + Text(p) && s'.out == s.out
    decreases p
  {
    match p
    case Plain(c, rest) =>
      FeedOne(s, c);
      s' := FeedUnclosed(Step(s, c), rest, nested);
      FeedThen(s, [c], Text(rest));
    case Literal(body, rest) =>
      var text := "\"" + BodyText(body) + "\"";
      LiteralCloses(s, body);
      FeedThen(s, text, Text(rest));
      if EndsPlainly(body) {
        s' := FeedUnclosed(Feed(s, text), rest, nested);
      } else {
        FeedQuoted(Feed(s, text), Text(rest));
        s' := Feed(s, text + Text(rest));
      }
    case Group(open, inner, close, rest) =>
      if WellFormed(inner, true) {
        var s1 := FeedGroup(s, open, inner, close);
        s' := FeedUnclosed(s1, rest, nested);
        FeedThen(s, [open] + Text(inner) + [close], Text(rest));
      } else {
        FeedOne(s, open);
        var s1 := FeedUnclosed(Step(s, open), inner, true);
        FeedThen(s, [open], Text(inner));
        FeedQuoted(s1, [close] + Text(rest));
        FeedThen(s, [open] + Text(inner), [close] + Text(rest));
        s' := Feed(s1, [close] + Text(rest));
        Regroup([open] + Text(inner), [close], Text(rest));
      }
  }

  lemma {:induction false} Regroup(a: string, b: string, c: string)
    ensures a + b + c == a + (b + c)
  {
  }

  /** Good arguments, except that the last literal of args[i] is not seen to end and no quote follows it. */
  predicate UnclosedAt(args: seq<Argument>, i: nat) {
    && i < |args| && GoodArguments(args[..i])
    && AllSpace(args[i].left) && AllSpace(args[i].right) && Trimmed(Text(args[i].value)) && Unclosed(args[i].value, false)
    && forall j :: i < j < |args| ==> GoodArgument(args[j]) && '"' !in Text(args[j].value)
  }

  /** What the arguments from the k-th on add to the joined text. */
  function Tail(args: seq<Argument>, k: nat): string
    requires k <= |args|
    decreases |args| - k
  {
    if k == |args| then [] else [','] + Padded(args[k]) + Tail(args, k + 1)
  }

  lemma {:induction false} JoinedTail(args: seq<Argument>, k: nat)
    requires 1 <= k <= |args|
    ensures Joined(args) == Joined(args[..k]) + Tail(args, k)
    decreases |args| - k
  {
    if k == |args| {
      assert args[..k] == args;
    } else {
      JoinedTail(args, k + 1);
      assert args[..k + 1][..k] == args[..k];
      Regroup(Joined(args[..k]) + [','], Padded(args[k]), Tail(args, k + 1));
      Regroup(Joined(args[..k]), [','], Padded(args[k]) + Tail(args, k + 1));
      Regroup([','], Padded(args[k]), Tail(args, k + 1));
    }
  }

  lemma {:induction false} TailQuoteless(args: seq<Argument>, k: nat)
    requires k <= |args| && forall j :: k <= j < |args| ==> GoodArgument(args[j]) && '"' !in Text(args[j].value)
    ensures '"' !in Tail(args, k)
    decreases |args| - k
  {
    if k == |args| {
    } else {
      TailQuoteless(args, k + 1);
      PaddedQuoteless(args[k]);
    }
  }

  lemma {:induction false} PaddedQuoteless(a: Argument)
    requires AllSpace(a.left) && AllSpace(a.right) && '"' !in Text(a.value)
    ensures '"' !in Padded(a)
  {
    assert !IsSpace('"');
  }

  /** The scanner at the end of an argument that is not seen to end. */
  lemma {:induction false} FeedUnclosedArgument(s: Scan, a: Argument)
    requires !s.inString && s.bracket == 0 && s.cur == []
    requires AllSpace(a.left) && AllSpace(a.right) && Unclosed(a.value, false)
    ensures var s' := Feed(s, Padded(a));
      s'.inString && s'.cur == Padded(a) && s'.out == s.out
  {
    var s1 := Feed(s, a.left);
    FeedSpace(s, a.left);
    var s2 := FeedUnclosed(s1, a.value, false);
    FeedThen(s, a.left, Text(a.value));
    assert '"' !in a.right by {
      assert !IsSpace('"');
    }
    FeedQuoted(s2, a.right);
    FeedThen(s, a.left + Text(a.value), a.right);
  }

  /** Everything before args[i] is split off, and everything from it on is one piece. */
  lemma {:induction false} FeedUpTo(args: seq<Argument>, i: nat)
    requires UnclosedAt(args, i)
    ensures var s := Feed(START, Joined(args[..i + 1]));
      s.inString && s.cur == Padded(args[i]) && s.out == Values(args[..i])
  {
    assert args[..i + 1][..i] == args[..i] && args[..i + 1][i] == args[i];
    if i == 0 {
      FeedUnclosedArgument(START, args[0]);
    } else {
      var text := Joined(args[..i]) + [','];
      FeedComma(args[..i]);
      FeedUnclosedArgument(Feed(START, text), args[i]);
      FeedThen(START, text, Padded(args[i]));
    }
  }

  /** The scanner after good arguments and a comma. */
  lemma {:induction false} FeedComma(args: seq<Argument>)
    requires args != [] && GoodArguments(args)
    ensures var s := Feed(START, Joined(args) + [',']);
      !s.inString && s.bracket == 0 && s.cur == [] && s.out == Values(args)
  {
    FeedJoined(args);
    var s := Feed(START, Joined(args));
    FeedArgument(START, args[|args| - 1]);
    FeedOne(s, ',');
    FeedThen(START, Joined(args), [',']);
  }

  /** From an unclosed literal on, the commas up to the end of the text do not split. */
  lemma {:induction false} ParseUnclosed(args: seq<Argument>, i: nat)
    requires UnclosedAt(args, i)
    ensures Parse(Joined(args)) == Values(args[..i]) + [Strip(Padded(args[i]) + Tail(args, i + 1))]
  {
    FeedUpTo(args, i);
    JoinedTail(args, i + 1);
    TailQuoteless(args, i + 1);
    var s := Feed(START, Joined(args[..i + 1]));
    FeedQuoted(s, Tail(args, i + 1));
    FeedThen(START, Joined(args[..i + 1]), Tail(args, i + 1));
  }

  /** Splitting still undoes joining if and only if the unclosed literal is in the last argument. */
  lemma {:induction false} UnclosedSplits(args: seq<Argument>, i: nat)
    requires UnclosedAt(args, i)
    ensures Parse(Joined(args)) == Values(args) <==> i == |args| - 1
  {
    ParseUnclosed(args, i);
    ValuesLength(args[..i]);
    ValuesLength(args);
    if i == |args| - 1 {
      assert Padded(args[i]) + [] == Padded(args[i]);
      StripPadded(args[i].left, Text(args[i].value), args[i].right);
    }
  }

  lemma {:induction false} ValuesLength(args: seq<Argument>)
    ensures |Values(args)| == |args|
    decreases |args|
  {
    if args == [] {
    } else {
      ValuesLength(args[..|args| - 1]);
    }
  }

  /** A string of one escaped backslash is not seen to end, and what follows it is not split. */
  lemma {:induction false} BackslashAhead(head: string, rest: string)
    requires head == ['"', '\\', '\\', '"'] && '"' !in rest && Trimmed(head + rest)
    ensures Parse(head + rest) == [head + rest]
  {
    var s1 := Step(START, '"');
    FeedOne(START, '"');
    var s3 := Feed(s1, head[1..3]);
    FeedQuoted(s1, head[1..3]);
    FeedThen(START, ['"'], head[1..3]);
    assert s3.prev == head[1..3][1];
    FeedOne(s3, '"');
    FeedThen(START, ['"'] + head[1..3], ['"']);
    assert head == ['"'] + head[1..3] + ['"'];
    assert Step(s3, '"').inString && Step(s3, '"').cur == head;
    FeedQuoted(Step(s3, '"'), rest);
    FeedThen(START, head, rest);
    StripPadded("", head + rest, "");
    assert "" + (head + rest) + "" == head + rest;
  }

  /** The smallest failing call: two arguments, and only one piece. */
  lemma {:induction false} BackslashSwallows()
    ensures Parse("\"\\\\\",b") == ["\"\\\\\",b"]
  {
    var head := ['"', '\\', '\\', '"'];
    BackslashAhead(head, ",b");
    assert head + ",b" == "\"\\\\\",b";
  }

  // ---- the brackets and blanks themselves

  /** Characters that stand for themselves, and then `rest`. */
  function Spelled(s: string, rest: Pieces): Pieces {
    if s == [] then rest else Plain(s[0], Spelled(s[1..], rest))
  }

  predicate Ordinary(s: string, nested: bool) {
    forall i :: 0 <= i < |s| ==> s[i] != '"' && !IsOpen(s[i]) && !IsClose(s[i]) && (s[i] == ',' ==> nested)
  }

  lemma {:induction false} SpelledText(s: string, rest: Pieces, nested: bool)
    requires Ordinary(s, nested) && WellFormed(rest, nested)
    ensures Text(Spelled(s, rest)) == s + Text(rest) && WellFormed(Spelled(s, rest), nested)
    decreases |s|
  {
    if s == [] {
      assert s + Text(rest) == Text(rest);
    } else {
      SpelledText(s[1..], rest, nested);
      assert [s[0]] + (s[1..] + Text(rest)) == s + Text(rest);
    }
  }

  predicate Brackets(open: char, close: char) {
    (open == '(' && close == ')') || (open == '{' && close == '}') || (open == '[' && close == ']')
  }

  /** Round, curly and square brackets hold everything between them together, commas included. */
  lemma {:induction false} BracketsHold(open: char, close: char, inner: string)
    requires Brackets(open, close)
    requires forall i :: 0 <= i < |inner| ==> inner[i] !in ['"', '(', ')', '{', '}', '[', ']']
    ensures Parse([open] + inner + [close]) == [[open] + inner + [close]]
    ensures Parse([open] + inner + [close] + "," + inner) == [[open] + inner + [close]] + Parse(inner)
  {
    var all := [open] + inner + [close];
    var a := BracketArgument(open, close, inner, all);
    FeedArgument(START, a);
    AfterComma(all, inner);
  }

  /** Text that is one argument, a comma, and more text. */
  lemma {:induction false} AfterComma(all: string, text: string)
    requires Feed(START, all) == START.(cur := all, prev := Feed(START, all).prev) && Strip(all) == all
    ensures Parse(all + "," + text) == [all] + Parse(text)
  {
    FeedOne(Feed(START, all), ',');
    FeedThen(START, all, ",");
    FeedThen(START, all + ",", text);
    FeedAfter(Feed(START, all + ","), [all], text);
  }

  lemma {:induction false} BracketArgument(open: char, close: char, inner: string, all: string) returns (a: Argument)
    requires Brackets(open, close) && all == [open] + inner + [close]
    requires forall i :: 0 <= i < |inner| ==> inner[i] !in ['"', '(', ')', '{', '}', '[', ']']
    ensures GoodArgument(a) && Padded(a) == all == Text(a.value)
  {
    assert Ordinary(inner, true);
    SpelledText(inner, End, true);
    assert inner + [] == inner;
    var p := Spelled(inner, End);
    GroupText(open, p, close);
    Enclosed(all, open, inner, close);
    a := Argument("", Group(open, p, close, End), "");
  }

  lemma {:induction false} GroupText(open: char, p: Pieces, close: char)
    ensures Text(Group(open, p, close, End)) == [open] + Text(p) + [close]
  {
    assert [open] + Text(p) + [close] + [] == [open] + Text(p) + [close];
  }

  lemma {:induction false} Enclosed(all: string, open: char, inner: string, close: char)
    requires all == [open] + inner + [close]
    ensures all[0] == open && all[|all| - 1] == close && "" + all + "" == all
  {
  }

  /** After a comma the scanner goes on as from the start. */
  lemma {:induction false} FeedAfter(s: Scan, out: seq<string>, text: string)
    requires s == START.(prev := s.prev, out := out)
    ensures Feed(s, text) ==
      Feed(START, text).(prev := if text == [] then s.prev else Feed(START, text).prev, out := out + Feed(START, text).out)
    decreases |text|
  {
    if text == [] {
      assert out + [] == out;
    } else {
      FeedAfter(s, out, text[..|text| - 1]);
      StepAfter(Feed(START, text[..|text| - 1]), Feed(s, text[..|text| - 1]), out, text[|text| - 1]);
    }
  }

  lemma {:induction false} StepAfter(s: Scan, t: Scan, out: seq<string>, c: char)
    requires t == s.(prev := t.prev, out := out + s.out) && (s.inString ==> t.prev == s.prev)
    ensures Step(t, c) == Step(s, c).(out := out + Step(s, c).out)
  {
    assert (out + s.out) + [Strip(s.cur)] == out + (s.out + [Strip(s.cur)]);
  }

  /** Blanks, tabs and line ends are stripped, and printing characters are not. */
  lemma {:induction false} BlanksGo(c: char, s: string)
    ensures c in [' ', '\t', '\r', '\n'] ==> Strip([c] + s) == Strip(s)
    ensures '!' <= c <= '~' ==> Strip([c]) == [c]
  {
    assert ([c] + s)[1..] == s;
  }
}
