/**
 Event messages with numbered placeholders: shifting every placeholder when arguments are prepended.
 A placeholder is `{` and decimal digits; a backslash takes the next character out of consideration.
 */
module EventMessage {
  import opened Collections

  // ---- decimal numbers

  predicate IsDigit(c: char) {
    '0' <= c <= '9'
  }

  predicate AllDigits(s: string) {
    forall i :: 0 <= i < |s| ==> IsDigit(s[i])
  }

  function DigitValue(c: char): nat
    requires IsDigit(c)
  {
    (c as int) - ('0' as int)
  }

  function DigitChar(d: nat): (c: char)
    requires d < 10
    ensures IsDigit(c) && DigitValue(c) == d
  {
    (('0' as int) + d) as char
  }

  function ToInt(s: string): nat
    requires AllDigits(s)
  {
    if s == [] then 0 else ToInt(s[..|s| - 1]) * 10 + DigitValue(s[|s| - 1])
  }

  function ToStr(n: nat): (s: string)
    ensures s != [] && AllDigits(s)
  {
    if n < 10 then [DigitChar(n)] else ToStr(n / 10) + [DigitChar(n % 10)]
  }

  lemma {:induction false} IntOfStr(n: nat)
    ensures ToInt(ToStr(n)) == n
  {
    if n < 10 {
      assert ToStr(n)[..0] == [];
    } else {
      IntOfStr(n / 10);
      var s := ToStr(n);
      assert s[..|s| - 1] == ToStr(n / 10);
    }
  }

  /** How many digits the string starts with. */
  function DigitRun(s: string): (r: nat)
    ensures r <= |s| && AllDigits(s[..r]) && (r < |s| ==> !IsDigit(s[r]))
  {
    if s == [] || !IsDigit(s[0]) then 0
    else
      var r := 1 + DigitRun(s[1..]);
      assert s[..r] == [s[0]] + s[1..][..r - 1];
      r
  }

  predicate NoDigitFirst(s: string) {
    s != [] ==> !IsDigit(s[0])
  }

  lemma {:induction false} DigitRunExact(digits: string, rest: string)
    requires AllDigits(digits) && NoDigitFirst(rest)
    ensures DigitRun(digits + rest) == |digits|
    ensures (digits + rest)[..|digits|] == digits && (digits + rest)[|digits|..] == rest
  {
    var s, n := digits + rest, |digits|;
    var r := DigitRun(s);
    assert s[..n] == digits && s[n..] == rest;
    // the run is not shorter: it would end at a digit
    forall i | 0 <= i < n ensures IsDigit(s[i]) {
      assert s[i] == digits[i];
    }
    // and not longer: it would hold the first character after the digits
    forall i | 0 <= i < r ensures IsDigit(s[i]) {
      assert s[..r][i] == s[i];
    }
    if rest != [] {
      assert s[n] == rest[0];
    }
  }

  /** A brace and digits are read back as the placeholder they were written as. */
  lemma {:induction false} PlaceholderParts(t: string, digits: string, rest: string)
    requires t == "{" + digits + rest && digits != [] && AllDigits(digits) && NoDigitFirst(rest)
    ensures t[0] == '{' && DigitRun(t[1..]) == |digits|
    ensures t[1..][..|digits|] == digits && t[1..][|digits|..] == rest
  {
    assert t[1..] == digits + rest;
    DigitRunExact(digits, rest);
  }

  // ---- shifting

  /** Every placeholder number plus `offset`. */
  function Shifted(msg: string, offset: nat): string {
    if msg == [] then []
    else if msg[0] == '\\' then
      if |msg| == 1 then msg else msg[..2] + Shifted(msg[2..], offset)
    else if msg[0] == '{' && DigitRun(msg[1..]) > 0 then
      var n := DigitRun(msg[1..]);
      "{" + ToStr(ToInt(msg[1..][..n]) + offset) + Shifted(msg[1..][n..], offset)
    else [msg[0]] + Shifted(msg[1..], offset)
  }

  lemma {:induction false} DigitsStay(digits: string, rest: string, offset: nat)
    requires AllDigits(digits)
    ensures Shifted(digits + rest, offset) == digits + Shifted(rest, offset)
    decreases |digits|
  {
    if digits == [] {
      assert digits + rest == rest;
    } else {
      DigitsStay(digits[1..], rest, offset);
      assert (digits + rest)[1..] == digits[1..] + rest;
      assert [digits[0]] + (digits[1..] + Shifted(rest, offset)) == digits + Shifted(rest, offset);
    }
  }

  function Opens(s: string): nat {
    if s == [] then 0 else (if s[0] == '{' then 1 else 0) + Opens(s[1..])
  }

  lemma {:induction false} OpensOfDigits(digits: string, rest: string)
    requires AllDigits(digits)
    ensures Opens(digits + rest) == Opens(rest)
    decreases |digits|
  {
    if digits == [] {
      assert digits + rest == rest;
    } else {
      OpensOfDigits(digits[1..], rest);
      assert (digits + rest)[1..] == digits[1..] + rest;
    }
  }

  /** The part of the message not looked at yet. */
  function From(msg: string, i: nat): string {
    if i <= |msg| then msg[i..] else []
  }

  lemma {:induction false} NextChar(msg: string, i: nat)
    requires i < |msg|
    ensures msg[i..] == [msg[i]] + msg[i + 1..] && msg[i..][1..] == msg[i + 1..]
    ensures msg[..i + 1] == msg[..i] + [msg[i]]
  {
  }

  /** The first i characters are done; a trailing backslash is skipped together with what would follow it. */
  ghost predicate Done(message: string, offset: nat, msg: string, i: nat) {
    i <= |msg| + 1 &&
    if i <= |msg| then msg[..i] + Shifted(msg[i..], offset) == Shifted(message, offset)
    else msg == Shifted(message, offset)
  }

  /** The number may get longer, so the loop is measured by the braces ahead and then by the length. */
  method ShiftPrintedArguments(message: string, offset: nat) returns (msg: string)
    ensures msg == Shifted(message, offset)
  {
    msg := message;
    var i := 0;
    assert Done(message, offset, msg, 0) by {
      assert message[..0] + Shifted(message[0..], offset) == Shifted(message, offset);
    }
    while i < |msg|
      invariant Done(message, offset, msg, i)
      decreases Opens(From(msg, i)), |msg| - i
    {
      if msg[i] == '\\' {
        EscapeStep(message, msg, i, offset);
        i := i + 2;
        continue;
      }
      if msg[i] == '{' {
        var n := DigitRun(msg[i + 1..]);
        if n > 0 {
          var argIdx := ToInt(msg[i + 1..][..n]) + offset;
          PlaceholderStep(message, msg, i, n, argIdx, offset);
          msg := msg[..i + 1] + ToStr(argIdx) + msg[i + 1 + n..];
          i := i + 1;
          continue;
        }
      }
      PlainStep(message, msg, i, offset);
      i := i + 1;
    }
    if i == |msg| {
      assert msg[..i] + Shifted(msg[i..], offset) == msg;
    }
  }

  lemma {:induction false} PlainStep(message: string, msg: string, i: nat, offset: nat)
    requires Done(message, offset, msg, i) && i < |msg| && msg[i] != '\\'
    requires !(msg[i] == '{' && DigitRun(msg[i + 1..]) > 0)
    ensures Done(message, offset, msg, i + 1) && Opens(From(msg, i + 1)) <= Opens(From(msg, i))
  {
  }

  lemma {:induction false} EscapeStep(message: string, msg: string, i: nat, offset: nat)
    requires Done(message, offset, msg, i) && i < |msg| && msg[i] == '\\'
    ensures Done(message, offset, msg, i + 2) && Opens(From(msg, i + 2)) <= Opens(From(msg, i))
  {
  }

  lemma {:induction false} PlaceholderStep(message: string, msg: string, i: nat, n: nat, argIdx: nat, offset: nat)
    requires Done(message, offset, msg, i) && i < |msg| && msg[i] == '{' && n == DigitRun(msg[i + 1..]) && n > 0
    requires argIdx == ToInt(msg[i + 1..][..n]) + offset
    ensures i + 1 + n <= |msg|
    ensures var next := msg[..i + 1] + ToStr(argIdx) + msg[i + 1 + n..];
      Done(message, offset, next, i + 1) && Opens(From(next, i + 1)) < Opens(From(msg, i))
  {
    var s, rest := ToStr(argIdx), msg[i + 1 + n..];
    var next := msg[..i + 1] + s + rest;
    NextChar(msg, i);
    assert msg[i + 1..][n..] == rest;
    assert next[..i + 1] == msg[..i + 1] && next[i + 1..] == s + rest;
    assert msg[..i] + Shifted(msg[i..], offset) == next[..i + 1] + Shifted(next[i + 1..], offset) by {
      DigitsStay(s, rest, offset);
      Join(msg[..i], s, Shifted(rest, offset));
    }
    PlaceholderOpens(msg[i + 1..], n, s, rest);
  }

  lemma {:induction false} Join(before: string, s: string, rest: string)
    ensures before + ("{" + s + rest) == (before + ['{']) + (s + rest)
  {
  }

  lemma {:induction false} PlaceholderOpens(tail: string, n: nat, s: string, rest: string)
    requires n == DigitRun(tail) && rest == tail[n..] && AllDigits(s)
    ensures Opens(s + rest) == Opens(tail)
  {
    OpensOfDigits(s, rest);
    OpensOfDigits(tail[..n], rest);
    assert tail[..n] + rest == tail;
  }

  // ---- what a message means

  datatype Token = Text(c: char) | Slot(index: nat)

  function Lex(msg: string): seq<Token> {
    if msg == [] then []
    else if msg[0] == '\\' then
      if |msg| == 1 then [Text(msg[0])] else [Text(msg[0]), Text(msg[1])] + Lex(msg[2..])
    else if msg[0] == '{' && DigitRun(msg[1..]) > 0 then
      var n := DigitRun(msg[1..]);
      [Slot(ToInt(msg[1..][..n]))] + Lex(msg[1..][n..])
    else [Text(msg[0])] + Lex(msg[1..])
  }

  // ---- messages as they are composed

  datatype Part = Shown(c: char) | Escaped(c: char) | Placeholder(digits: string)

  /** A backslash before a character, and a brace before the digits of a placeholder. */
  function Composed(parts: seq<Part>): string {
    if parts == [] then []
    else
      (match parts[0]
       case Shown(c) => [c]
       case Escaped(c) => ['\\', c]
       case Placeholder(digits) => "{" + digits) + Composed(parts[1..])
  }

  function Meaning(parts: seq<Part>): seq<Token> {
    if parts == [] then []
    else
      (match parts[0]
       case Shown(c) => [Text(c)]
       case Escaped(c) => [Text('\\'), Text(c)]
       case Placeholder(digits) => [Slot(if AllDigits(digits) then ToInt(digits) else 0)]) + Meaning(parts[1..])
  }

  /** Backslashes and braces are not shown as they are, and no digit is shown right after a placeholder. */
  predicate WellComposed(parts: seq<Part>) {
    if parts == [] then true
    else
      && WellComposed(parts[1..])
      && match parts[0]
         case Shown(c) => c != '\\' && c != '{'
         case Escaped(c) => true
         case Placeholder(digits) => digits != [] && AllDigits(digits) && NoDigitFirst(Composed(parts[1..]))
  }

  /** A composed message means what its parts say, whatever its characters and however its numbers are written. */
  lemma {:induction false} LexComposed(parts: seq<Part>)
    requires WellComposed(parts)
    ensures Lex(Composed(parts)) == Meaning(parts)
    decreases |parts|
  {
    if parts == [] {
    } else {
      var rest := Composed(parts[1..]);
      LexComposed(parts[1..]);
      match parts[0] {
        case Shown(c) =>
          LexShown(c, rest);
        case Escaped(c) =>
          LexEscaped(c, rest);
        case Placeholder(digits) =>
          LexSlot(digits, rest);
      }
    }
  }

  lemma {:induction false} LexShown(c: char, rest: string)
    requires c != '\\' && c != '{'
    ensures Lex([c] + rest) == [Text(c)] + Lex(rest)
  {
    assert ([c] + rest)[1..] == rest;
  }

  lemma {:induction false} LexEscaped(c: char, rest: string)
    ensures Lex(['\\', c] + rest) == [Text('\\'), Text(c)] + Lex(rest)
  {
    assert (['\\', c] + rest)[2..] == rest;
  }

  lemma {:induction false} LexSlot(digits: string, rest: string)
    requires digits != [] && AllDigits(digits) && NoDigitFirst(rest)
    ensures Lex("{" + digits + rest) == [Slot(ToInt(digits))] + Lex(rest)
  {
    PlaceholderParts("{" + digits + rest, digits, rest);
  }

  function Raise(tokens: seq<Token>, offset: nat): seq<Token> {
    seq(|tokens|, i requires 0 <= i < |tokens| =>
      match tokens[i] case Slot(n) => Slot(n + offset) case Text(c) => Text(c))
  }

  lemma {:induction false} RaiseAppend(a: seq<Token>, b: seq<Token>, offset: nat)
    ensures Raise(a + b, offset) == Raise(a, offset) + Raise(b, offset)
  {
  }

  /** A message never starts with a digit that a preceding placeholder could swallow. */
  lemma {:induction false} ShiftedFirst(msg: string, offset: nat)
    requires NoDigitFirst(msg)
    ensures NoDigitFirst(Shifted(msg, offset))
  {
  }

  /** Shifting the text shifts exactly the placeholders of its meaning. */
  lemma {:induction false} LexShifted(msg: string, offset: nat)
    ensures Lex(Shifted(msg, offset)) == Raise(Lex(msg), offset)
    decreases |msg|
  {
    if msg == [] {
    } else if msg[0] == '\\' {
      if |msg| > 1 {
        LexShifted(msg[2..], offset);
        var t := Shifted(msg, offset);
        assert t[0] == msg[0] && t[1] == msg[1] && t[2..] == Shifted(msg[2..], offset);
        RaiseAppend([Text(msg[0]), Text(msg[1])], Lex(msg[2..]), offset);
      }
    } else if msg[0] == '{' && DigitRun(msg[1..]) > 0 {
      var n := DigitRun(msg[1..]);
      LexShifted(msg[1..][n..], offset);
      LexPlaceholder(msg, n, offset);
    } else {
      LexShifted(msg[1..], offset);
      LexPlain(msg, offset);
    }
  }

  lemma {:induction false} RaiseSlot(index: nat, rest: seq<Token>, offset: nat)
    ensures Raise([Slot(index)] + rest, offset) == [Slot(index + offset)] + Raise(rest, offset)
  {
  }

  lemma {:induction false} LexPlaceholder(msg: string, n: nat, offset: nat)
    requires msg != [] && msg[0] == '{' && n == DigitRun(msg[1..]) && n > 0
    requires Lex(Shifted(msg[1..][n..], offset)) == Raise(Lex(msg[1..][n..]), offset)
    ensures Lex(Shifted(msg, offset)) == Raise(Lex(msg), offset)
  {
    var index, rest := ToInt(msg[1..][..n]), msg[1..][n..];
    var s, t := ToStr(index + offset), Shifted(msg, offset);
    ShiftedFirst(rest, offset);
    PlaceholderParts(t, s, Shifted(rest, offset));
    IntOfStr(index + offset);
    assert Lex(t) == [Slot(index + offset)] + Lex(Shifted(rest, offset));
    assert Lex(msg) == [Slot(index)] + Lex(rest);
    RaiseSlot(index, Lex(rest), offset);
  }

  lemma {:induction false} LexPlain(msg: string, offset: nat)
    requires msg != [] && msg[0] != '\\' && !(msg[0] == '{' && DigitRun(msg[1..]) > 0)
    requires Lex(Shifted(msg[1..], offset)) == Raise(Lex(msg[1..]), offset)
    ensures Lex(Shifted(msg, offset)) == Raise(Lex(msg), offset)
  {
    var t := Shifted(msg, offset);
    assert t[1..] == Shifted(msg[1..], offset) && t[0] == msg[0];
    if msg[0] == '{' {
      assert NoDigitFirst(msg[1..]);
      ShiftedFirst(msg[1..], offset);
      assert NoDigitFirst(t[1..]);
    }
    RaiseAppend([Text(msg[0])], Lex(msg[1..]), offset);
  }

  /** Shifting twice is shifting by the sum. */
  lemma {:induction false} ShiftTwice(msg: string, a: nat, b: nat)
    ensures Shifted(Shifted(msg, a), b) == Shifted(msg, a + b)
    decreases |msg|
  {
    var t := Shifted(msg, a);
    if msg == [] {
    } else if msg[0] == '\\' {
      if |msg| > 1 {
        ShiftTwice(msg[2..], a, b);
        assert t[0] == msg[0] && t[..2] == msg[..2] && t[2..] == Shifted(msg[2..], a);
      }
    } else if msg[0] == '{' && DigitRun(msg[1..]) > 0 {
      var n := DigitRun(msg[1..]);
      var index, rest := ToInt(msg[1..][..n]), msg[1..][n..];
      ShiftTwice(rest, a, b);
      ShiftedFirst(rest, a);
      PlaceholderParts(t, ToStr(index + a), Shifted(rest, a));
      IntOfStr(index + a);
    } else {
      ShiftTwice(msg[1..], a, b);
      assert t[1..] == Shifted(msg[1..], a) && t[0] == msg[0];
      if msg[0] == '{' {
        assert NoDigitFirst(msg[1..]);
        ShiftedFirst(msg[1..], a);
        assert NoDigitFirst(t[1..]);
      }
    }
  }

  // ---- rendering

  /** What is printed: a character, an argument, or a placeholder that no argument fills. */
  datatype Item<A> = Char(c: char) | Arg(value: A) | Unfilled

  /** Placeholder `first` names the first argument. */
  function RenderToken<A>(t: Token, args: seq<A>, first: nat): Item<A> {
    match t
    case Text(c) => Char(c)
    case Slot(n) => if first <= n < first + |args| then Arg(args[n - first]) else Unfilled
  }

  function Render<A>(msg: string, args: seq<A>, first: nat): seq<Item<A>> {
    var tokens := Lex(msg);
    seq(|tokens|, i requires 0 <= i < |tokens| => RenderToken(tokens[i], args, first))
  }

  /** An appended argument fills the placeholders with the next number, and nothing else that is printed changes. */
  lemma {:induction false} RenderAppended<A>(msg: string, args: seq<A>, arg: A, first: nat, i: nat)
    requires i < |Lex(msg)|
    ensures |Render(msg, args + [arg], first)| == |Render(msg, args, first)| == |Lex(msg)|
    ensures Render(msg, args + [arg], first)[i] ==
      if Lex(msg)[i] == Slot(first + |args|) then Arg(arg) else Render(msg, args, first)[i]
  {
    RenderTokenAppended(Lex(msg)[i], args, arg, first);
  }

  lemma {:induction false} RenderTokenAppended<A>(t: Token, args: seq<A>, arg: A, first: nat)
    ensures RenderToken(t, args + [arg], first) ==
      if t == Slot(first + |args|) then Arg(arg) else RenderToken(t, args, first)
  {
  }

  /** No placeholder below the first argument's number would be moved onto a prepended argument. */
  predicate Clear(msg: string, added: nat, first: nat) {
    forall i :: 0 <= i < |Lex(msg)| && Lex(msg)[i].Slot? ==>
      Lex(msg)[i].index >= first || Lex(msg)[i].index + added < first
  }

  /** Prepending arguments keeps what is printed exactly when the message is clear. */
  lemma {:induction false} RenderPrepended<A>(msg: string, added: seq<A>, args: seq<A>, first: nat)
    ensures Render(Shifted(msg, |added|), added + args, first) == Render(msg, args, first) <==> Clear(msg, |added|, first)
  {
    LexShifted(msg, |added|);
    var tokens := Lex(msg);
    var shifted := Render(Shifted(msg, |added|), added + args, first);
    var original := Render(msg, args, first);
    assert |shifted| == |original| == |tokens|;
    forall i | 0 <= i < |tokens|
      ensures shifted[i] == original[i] <==>
        (tokens[i].Slot? ==> tokens[i].index >= first || tokens[i].index + |added| < first)
    {
    }
    if Clear(msg, |added|, first) {
      assert shifted == original;
    } else {
      var i :| 0 <= i < |tokens| && tokens[i].Slot? && !(tokens[i].index >= first || tokens[i].index + |added| < first);
      assert shifted[i] != original[i];
    }
  }

  /** Numbered from 0 every message is clear. */
  lemma {:induction false} ClearFromZero(msg: string, added: nat)
    ensures Clear(msg, added, 0)
  {
  }

  /** A message that is one placeholder. */
  function Braced(n: nat): string {
    "{" + ToStr(n) + "}"
  }

  lemma {:induction false} BracedShifts(n: nat, offset: nat)
    ensures Lex(Braced(n)) == [Slot(n), Text('}')] && Shifted(Braced(n), offset) == Braced(n + offset)
  {
    IntOfStr(n);
    PlaceholderParts(Braced(n), ToStr(n), "}");
    assert "}"[1..] == "";
    assert Lex("}") == [Text('}')] && Shifted("}", offset) == "}";
  }

  lemma {:induction false} BracedRenders<A>(n: nat, args: seq<A>, first: nat)
    ensures Render(Braced(n), args, first) == [RenderToken(Slot(n), args, first), Char('}')]
  {
    BracedShifts(n, 0);
  }

  /** Numbered from 1, a message with a placeholder 0 changes its meaning. */
  lemma {:induction false} ZeroCaptured()
    ensures Render(Braced(0), ['a'], 1) == [Unfilled, Char('}')]
    ensures Shifted(Braced(0), 1) == Braced(1) && Render(Braced(1), ['p', 'a'], 1) == [Arg('p'), Char('}')]
  {
    BracedShifts(0, 1);
    BracedRenders(0, ['a'], 1);
    BracedRenders(1, ['p', 'a'], 1);
  }

  // ---- the event object

  function ShiftedOption(text: Option<string>, offset: nat): Option<string> {
    match text case None => None case Some(t) => Some(Shifted(t, offset))
  }

  class Event {
    var message: Option<string>
    var description: Option<string>
    var arguments: seq<(string, string)>

    constructor ()
      ensures message == None && description == None && arguments == []
    {
      message, description, arguments := None, None, [];
    }

    method AddArgument(argType: string, name: string)
      modifies this`arguments
      ensures arguments == old(arguments) + [(argType, name)]
    {
      arguments := arguments + [(argType, name)];
    }

    /** The new arguments come first; both texts still print what they printed when they are clear. */
    method PrependArguments(added: seq<(string, string)>)
      modifies this
      ensures arguments == added + old(arguments)
      ensures message == ShiftedOption(old(message), |added|)
      ensures description == ShiftedOption(old(description), |added|)
      ensures forall first: nat :: old(message).Some? ==>
        (Clear(old(message).value, |added|, first) <==>
         Render(message.value, arguments, first) == Render(old(message).value, old(arguments), first))
      ensures forall first: nat :: old(description).Some? ==>
        (Clear(old(description).value, |added|, first) <==>
         Render(description.value, arguments, first) == Render(old(description).value, old(arguments), first))
    {
      arguments := added + arguments;
      var numAdded := |added|;
      if message.Some? {
        var text := ShiftPrintedArguments(message.value, numAdded);
        message := Some(text);
      }
      if description.Some? {
        var text := ShiftPrintedArguments(description.value, numAdded);
        description := Some(text);
      }
      forall first: nat | old(message).Some?
        ensures Clear(old(message).value, |added|, first) <==>
          Render(message.value, arguments, first) == Render(old(message).value, old(arguments), first)
      {
        RenderPrepended(old(message).value, added, old(arguments), first);
      }
      forall first: nat | old(description).Some?
        ensures Clear(old(description).value, |added|, first) <==>
          Render(description.value, arguments, first) == Render(old(description).value, old(arguments), first)
      {
        RenderPrepended(old(description).value, added, old(arguments), first);
      }
    }
  }
}
