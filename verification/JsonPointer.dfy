/** JSON pointers of RFC 6901 as the readiness evaluator resolves them. */
module JsonPointer {
  import opened Splitting
  import opened Wrappers

  datatype Json =
    | Null
    | Bool(b: bool)
    | Number(literal: string)
    | Text(text: string)
    | List(items: seq<Json>)
    | Object(members: map<string, Json>)

  datatype Error = Malformed | Missing

  // ------------------------------------------------------------------- references

  /** Python's `s.replace("~d", by)`. */
  function Replaced(s: string, d: char, next: string): string {
    if s == [] then
      []
    else if |s| >= 2 && s[0] == '~' && s[1] == d then
      next + Replaced(s[2..], d, next)
    else
      [s[0]] + Replaced(s[1..], d, next)
  }

  /** Section 4: first ~1, then ~0. */
  function Decoded(s: string): string {
    Replaced(Replaced(s, '1', "/"), '0', "~")
  }

  /** Section 3: how a name is written in a pointer. */
  function Escaped(s: string): string {
    if s == [] then [] else (if s[0] == '~' then "~0" else if s[0] == '/' then "~1" else [s[0]]) + Escaped(s[1..])
  }

  /** What the first replacement leaves of an escaped name. */
  function TildesEscaped(s: string): string {
    if s == [] then [] else (if s[0] == '~' then "~0" else [s[0]]) + TildesEscaped(s[1..])
  }

  lemma ReplacedPlain(c: char, rest: string, d: char, next: string)
    requires c != '~'
    ensures Replaced([c] + rest, d, next) == [c] + Replaced(rest, d, next)
  {
  }

  lemma ReplacedHit(rest: string, d: char, next: string)
    ensures Replaced(['~', d] + rest, d, next) == next + Replaced(rest, d, next)
  {
  }

  lemma ReplacedOther(e: char, rest: string, d: char, next: string)
    requires e != d && e != '~'
    ensures Replaced(['~', e] + rest, d, next) == ['~', e] + Replaced(rest, d, next)
  {
  }

  lemma {:induction false} SlashesFirst(s: string)
    ensures Replaced(Escaped(s), '1', "/") == TildesEscaped(s)
  {
    if s != [] {
      SlashesFirst(s[1..]);
      var rest := Escaped(s[1..]);
      hide Replaced;
      ReplacedOther('0', rest, '1', "/");
      ReplacedHit(rest, '1', "/");
      if s[0] != '~' {
        ReplacedPlain(s[0], rest, '1', "/");
      }
    } else {
      assert Escaped(s) == [];
    }
  }

  lemma {:induction false} TildesSecond(s: string)
    ensures Replaced(TildesEscaped(s), '0', "~") == s
  {
    if s != [] {
      TildesSecond(s[1..]);
      var rest := TildesEscaped(s[1..]);
      hide Replaced;
      ReplacedHit(rest, '0', "~");
      if s[0] != '~' {
        ReplacedPlain(s[0], rest, '0', "~");
      }
      assert [s[0]] + s[1..] == s;
    }
  }

  /** Decoding undoes escaping, for every name. */
  lemma DecodedEscaped(s: string)
    ensures Decoded(Escaped(s)) == s
  {
    SlashesFirst(s);
    TildesSecond(s);
  }

  /** In the other order it would not: the name ~1 would come back as a slash. */
  lemma OrderMatters()
    ensures Escaped("~1") == "~01" && Decoded("~01") == "~1"
    ensures Replaced(Replaced("~01", '0', "~"), '1', "/") == "/"
  {
  }

  lemma {:induction false} EscapedHasNoSlash(s: string)
    ensures '/' !in Escaped(s)
  {
    if s != [] {
      EscapedHasNoSlash(s[1..]);
    }
  }

  // ---------------------------------------------------------------------- indexes

  predicate IsDigit(c: char) {
    '0' <= c <= '9'
  }

  predicate IsSpace(c: char) {
    c in " \t\n\r" || c == 11 as char || c == 12 as char
  }

  function Stripped(s: string): string
    decreases |s|
  {
    if s == [] then []
    else if IsSpace(s[0]) then Stripped(s[1..])
    else if IsSpace(s[|s| - 1]) then Stripped(s[..|s| - 1])
    else s
  }

  /** Decimal digits; single underscores may stand between them. */
  function DigitsValue(s: string): Option<nat>
    decreases |s|
  {
    if s == [] || !IsDigit(s[|s| - 1]) then
      None
    else
      var digit := (s[|s| - 1] - '0') as nat;
      if |s| == 1 then
        Some(digit)
      else
        var front := DigitsValue(if s[|s| - 2] == '_' then s[..|s| - 2] else s[..|s| - 1]);
        if front.None? then None else Some(10 * front.value + digit)
  }

  /** Python's `int(s)` over ASCII: spaces around, a sign, digits. */
  function IntOf(s: string): Option<int> {
    var t := Stripped(s);
    var signed := t != [] && t[0] in "+-";
    var digits := DigitsValue(if signed then t[1..] else t);
    if digits.None? then
      None
    else
      var value: int := digits.value;
      Some(if signed && t[0] == '-' then -value else value)
  }

  function Numeral(n: nat): string {
    (if n < 10 then [] else Numeral(n / 10)) + ['0' + (n % 10) as char]
  }

  lemma {:induction false} NumeralMeans(n: nat)
    ensures Numeral(n) != [] && DigitsValue(Numeral(n)) == Some(n)
    ensures forall i :: 0 <= i < |Numeral(n)| ==> IsDigit(Numeral(n)[i])
  {
    var s := Numeral(n);
    if n >= 10 {
      NumeralMeans(n / 10);
      assert s[..|s| - 1] == Numeral(n / 10);
    }
  }

  lemma PlainDigits(s: string)
    requires s != [] && IsDigit(s[0]) && IsDigit(s[|s| - 1])
    ensures Stripped(s) == s && s[0] !in "+-"
  {
  }

  lemma IntOfNumeral(n: nat)
    ensures IntOf(Numeral(n)) == Some(n)
  {
    hide DigitsValue, Numeral, Stripped;
    NumeralMeans(n);
    PlainDigits(Numeral(n));
  }

  /** Only spaces and the control characters from tab to carriage return. */
  predicate Spaces(s: string) {
    forall i :: 0 <= i < |s| ==> s[i] == ' ' || 9 <= s[i] as int <= 13
  }

  /** Digits, and single underscores between two of them. */
  predicate DigitLiteral(s: string) {
    && s != [] && IsDigit(s[0]) && IsDigit(s[|s| - 1])
    && forall i :: 0 <= i < |s| && !IsDigit(s[i]) ==> s[i] == '_' && i + 1 < |s| && IsDigit(s[i + 1])
  }

  function WithoutUnderscores(s: string): string {
    if s == [] then []
    else WithoutUnderscores(s[..|s| - 1]) + if s[|s| - 1] == '_' then [] else [s[|s| - 1]]
  }

  /** What stands before the last digit, without the underscore between. */
  function BeforeLast(s: string): string
    requires |s| > 1
  {
    if s[|s| - 2] == '_' then s[..|s| - 2] else s[..|s| - 1]
  }

  lemma DigitFront(s: string)
    requires |s| > 1 && IsDigit(s[|s| - 1])
    ensures var front := BeforeLast(s);
      && |front| < |s|
      && (DigitLiteral(s) <==> DigitLiteral(front))
      && (DigitLiteral(s) ==> WithoutUnderscores(s) == WithoutUnderscores(front) + [s[|s| - 1]])
  {
    var n := |s|;
    var front := if s[n - 2] == '_' then s[..n - 2] else s[..n - 1];
    if s[n - 2] == '_' {
      assert s[..n - 1][..n - 2] == front;
    }
    hide WithoutUnderscores;
    if DigitLiteral(front) {
      forall i | 0 <= i < n && !IsDigit(s[i]) ensures s[i] == '_' && i + 1 < n && IsDigit(s[i + 1]) {
        if i < |front| {
          assert front[i] == s[i];
        }
      }
    }
    if DigitLiteral(s) {
      assert s[n - 2] == '_' ==> n > 2 && IsDigit(s[n - 3]) by {
        if n > 2 && !IsDigit(s[n - 3]) {
          assert s[n - 3] == '_' && IsDigit(s[n - 2]);
        }
      }
      forall i | 0 <= i < |front| && !IsDigit(front[i])
        ensures front[i] == '_' && i + 1 < |front| && IsDigit(front[i + 1])
      {
        assert front[i] == s[i];
      }
    }
  }

  /** What is read as digits, and that the underscores do not count. */
  lemma {:induction false} DigitsValueMeans(s: string)
    ensures DigitsValue(s).Some? <==> DigitLiteral(s)
    ensures DigitLiteral(s) ==> DigitsValue(s) == DigitsValue(WithoutUnderscores(s))
    ensures DigitLiteral(s) ==> WithoutUnderscores(s) != [] && '_' !in WithoutUnderscores(s)
    decreases |s|
  {
    hide *;
    if |s| > 1 && IsDigit(s[|s| - 1]) {
      var front := BeforeLast(s);
      DigitFront(s);
      DigitsValueStep(s);
      DigitsValueMeans(front);
      if DigitLiteral(s) {
        IsNoUnderscore(s[|s| - 1]);
        SameDigits(s, front, WithoutUnderscores(front), s[|s| - 1]);
      }
    } else {
      ShortDigits(s);
    }
  }

  lemma SameDigits(s: string, front: string, plain: string, c: char)
    requires plain != [] && '_' !in plain && IsDigit(c) && DigitsValue(front) == DigitsValue(plain)
    requires DigitsValue(s) ==
      if DigitsValue(front).None? then None else Some(10 * DigitsValue(front).value + (c - '0') as nat)
    ensures DigitsValue(s) == DigitsValue(plain + [c])
  {
    hide DigitsValue;
    OneMoreDigit(plain, c);
  }

  lemma DigitsValueStep(s: string)
    requires |s| > 1 && IsDigit(s[|s| - 1])
    ensures var front := DigitsValue(BeforeLast(s));
      DigitsValue(s) == if front.None? then None else Some(10 * front.value + (s[|s| - 1] - '0') as nat)
  {
  }

  lemma IsNoUnderscore(c: char)
    requires IsDigit(c)
    ensures c != '_'
  {
  }

  lemma ShortDigits(s: string)
    requires |s| <= 1 || !IsDigit(s[|s| - 1])
    ensures DigitsValue(s).Some? <==> DigitLiteral(s)
    ensures DigitLiteral(s) ==> WithoutUnderscores(s) == s && s != [] && '_' !in s
  {
    if |s| == 1 {
      assert s[..0] == [];
    }
  }

  lemma OneMoreDigit(plain: string, c: char)
    requires plain != [] && '_' !in plain && IsDigit(c)
    ensures DigitsValue(plain + [c]) ==
      if DigitsValue(plain).None? then None else Some(10 * DigitsValue(plain).value + (c - '0') as nat)
  {
    hide DigitsValue;
    var s := plain + [c];
    assert s[|s| - 2] == plain[|plain| - 1] && s[..|s| - 1] == plain;
    DigitsValueStep(s);
  }

  lemma NumeralStep(n: nat)
    ensures var digit := '0' + (n % 10) as char;
      && Numeral(n) == (if n < 10 then [] else Numeral(n / 10)) + [digit]
      && IsDigit(digit) && (digit - '0') as nat == n % 10
  {
  }

  lemma ZerosValue(zeros: string)
    requires zeros != [] && forall i :: 0 <= i < |zeros| ==> zeros[i] == '0'
    ensures DigitsValue(zeros) == Some(0)
  {
  }

  /** Leading zeros do not count either, and then the digits are the numeral. */
  lemma {:induction false} LeadingZeros(zeros: string, n: nat)
    requires forall i :: 0 <= i < |zeros| ==> zeros[i] == '0'
    ensures DigitsValue(zeros + Numeral(n)) == Some(n)
  {
    hide DigitsValue, Numeral;
    NumeralStep(n);
    var digit := '0' + (n % 10) as char;
    if n < 10 {
      assert Numeral(n) == [digit];
      if zeros == [] {
        NumeralMeans(n);
        assert zeros + Numeral(n) == Numeral(n);
      } else {
        ZerosValue(zeros);
        OneMoreDigit(zeros, digit);
      }
    } else {
      var front := zeros + Numeral(n / 10);
      NumeralMeans(n / 10);
      LeadingZeros(zeros, n / 10);
      assert zeros + Numeral(n) == front + [digit];
      OneMoreDigit(front, digit);
    }
  }

  lemma SpaceMeans(c: char)
    ensures IsSpace(c) <==> c == ' ' || 9 <= c as int <= 13
  {
  }

  lemma StrippedStep(s: string)
    ensures s != [] && IsSpace(s[0]) ==> Stripped(s) == Stripped(s[1..]) && s == [s[0]] + s[1..]
    ensures s != [] && !IsSpace(s[0]) && IsSpace(s[|s| - 1]) ==>
      Stripped(s) == Stripped(s[..|s| - 1]) && s == s[..|s| - 1] + [s[|s| - 1]]
    ensures s == [] || (!IsSpace(s[0]) && !IsSpace(s[|s| - 1])) ==> Stripped(s) == s
  {
  }

  lemma {:induction false} StrippedParts(s: string) returns (a: string, b: string)
    ensures s == a + Stripped(s) + b && Spaces(a) && Spaces(b)
    ensures var t := Stripped(s); t != [] ==> !IsSpace(t[0]) && !IsSpace(t[|t| - 1])
    decreases |s|
  {
    a, b := [], [];
    StrippedStep(s);
    hide Stripped, IsSpace;
    if s != [] {
      SpaceMeans(s[0]);
      SpaceMeans(s[|s| - 1]);
    }
    if s != [] && IsSpace(s[0]) {
      var a', b' := StrippedParts(s[1..]);
      a, b := [s[0]] + a', b';
    } else if s != [] && IsSpace(s[|s| - 1]) {
      var a', b' := StrippedParts(s[..|s| - 1]);
      a, b := a', b' + [s[|s| - 1]];
    }
  }

  lemma {:induction false} StrippedCore(a: string, t: string, b: string)
    requires Spaces(a) && Spaces(b) && t != [] && !IsSpace(t[0]) && !IsSpace(t[|t| - 1])
    ensures Stripped(a + t + b) == t
    decreases |a| + |b|
  {
    var s := a + t + b;
    StrippedStep(s);
    hide Stripped, IsSpace;
    SpaceMeans(s[0]);
    SpaceMeans(s[|s| - 1]);
    if a != [] {
      StrippedCore(a[1..], t, b);
      assert s[1..] == a[1..] + t + b;
    } else if b != [] {
      StrippedCore(a, t, b[..|b| - 1]);
      assert s[..|s| - 1] == a + t + b[..|b| - 1];
    } else {
      assert s == t;
    }
  }

  /** The token is the number v: digits after an optional sign, with spaces
      around. */
  ghost predicate Reads(s: string, a: string, sign: string, digits: string, b: string, v: int) {
    && s == a + (sign + digits) + b && Spaces(a) && Spaces(b)
    && (sign == "" || sign == "+" || sign == "-")
    && DigitLiteral(digits) && DigitsValue(digits).Some?
    && var n: int := DigitsValue(digits).value;
      v == if sign == "-" then -n else n
  }

  /** Exactly these tokens are list indexes to the evaluator. */
  lemma IntOfMeans(s: string, v: int)
    ensures IntOf(s) == Some(v) <==> exists a, sign, digits, b :: Reads(s, a, sign, digits, b, v)
  {
    hide *;
    if IntOf(s) == Some(v) {
      var a, sign, digits, b := IntIsRead(s, v);
    }
    forall a, sign, digits, b | Reads(s, a, sign, digits, b, v) ensures IntOf(s) == Some(v) {
      ReadIsInt(s, a, sign, digits, b, v);
    }
  }

  lemma IntIsRead(s: string, v: int) returns (a: string, sign: string, digits: string, b: string)
    requires IntOf(s) == Some(v)
    ensures Reads(s, a, sign, digits, b, v)
  {
    hide Stripped, DigitsValue, DigitLiteral, Spaces;
    var t := Stripped(s);
    a, b := StrippedParts(s);
    var signed := t != [] && t[0] in "+-";
    sign, digits := if signed then [t[0]] else "", if signed then t[1..] else t;
    assert t == sign + digits;
    DigitsValueMeans(digits);
  }

  lemma ReadIsInt(s: string, a: string, sign: string, digits: string, b: string, v: int)
    requires Reads(s, a, sign, digits, b, v)
    ensures IntOf(s) == Some(v)
  {
    var t := sign + digits;
    assert t != [] && t[|t| - 1] == digits[|digits| - 1] && !IsSpace(t[0]) && !IsSpace(t[|t| - 1]);
    hide Stripped, DigitsValue, IsSpace, Spaces;
    StrippedCore(a, t, b);
    SignOf(sign, digits);
  }

  lemma SignOf(sign: string, digits: string)
    requires (sign == "" || sign == "+" || sign == "-") && DigitLiteral(digits)
    ensures var t := sign + digits;
      var signed := t != [] && t[0] in "+-";
      (signed <==> sign != "") && (if signed then t[1..] else t) == digits && t != []
      && (signed ==> t[0] == sign[0])
  {
    assert sign + digits == if sign == "" then digits else [sign[0]] + digits;
  }

  // ------------------------------------------------------------------------- paths

  datatype Step = Key(name: string) | Index(index: nat)

  function Child(v: Json, step: Step): Option<Json> {
    match step
    case Key(name) => if v.Object? && name in v.members then Some(v.members[name]) else None
    case Index(i) => if v.List? && i < |v.items| then Some(v.items[i]) else None
  }

  /** The value at a path of keys and indexes. */
  function ValueAt(v: Json, path: seq<Step>): Option<Json> {
    if path == [] then
      Some(v)
    else
      var child := Child(v, path[0]);
      if child.None? then None else ValueAt(child.value, path[1..])
  }

  function Token(step: Step): string {
    match step
    case Key(name) => Escaped(name)
    case Index(i) => Numeral(i)
  }

  function Tokens(path: seq<Step>): seq<string> {
    if path == [] then [] else [Token(path[0])] + Tokens(path[1..])
  }

  /** A path written as a pointer. */
  function Printed(path: seq<Step>): string {
    if path == [] then "" else "/" + Token(path[0]) + Printed(path[1..])
  }

  // -------------------------------------------------------------------- resolution

  /** One decoded reference token: an object member first, then a list index. */
  function Descend(v: Json, segment: string): Option<Json> {
    if v.Object? && segment in v.members then
      Some(v.members[segment])
    else if v.List? then
      var index := IntOf(segment);
      if index.Some? && 0 <= index.value < |v.items| then Some(v.items[index.value]) else None
    else
      None
  }

  function Walk(v: Json, segments: seq<string>): Result<Json, Error> {
    if segments == [] then
      Success(v)
    else
      var child := Descend(v, Decoded(segments[0]));
      if child.None? then Failure(Missing) else Walk(child.value, segments[1..])
  }

  function Resolve(payload: Json, pointer: string): Result<Json, Error> {
    if pointer == "" then Success(payload)
    else if pointer[0] != '/' then Failure(Malformed)
    else Walk(payload, Split(pointer[1..], '/'))
  }

  method Evaluate(payload: Json, pointer: string) returns (r: Result<Json, Error>)
    ensures r == Resolve(payload, pointer)
  {
    if pointer == "" {
      return Success(payload);
    }
    if pointer[0] != '/' {
      return Failure(Malformed);
    }
    var segments := Split(pointer[1..], '/');
    var current := payload;
    for i := 0 to |segments|
      invariant Walk(payload, segments) == Walk(current, segments[i..])
    {
      var segment := Decoded(segments[i]);
      assert segments[i..][1..] == segments[i + 1..];
      if current.Object? && segment in current.members {
        current := current.members[segment];
        continue;
      }
      if current.List? {
        var index := IntOf(segment);
        if index.None? {
          return Failure(Missing);
        }
        if 0 <= index.value < |current.items| {
          current := current.items[index.value];
          continue;
        }
      }
      return Failure(Missing);
    }
    return Success(current);
  }

  // ------------------------------------------------------------------- round trips

  /** A step and its token lead to the same child. */
  lemma TokenDescends(v: Json, step: Step)
    requires Child(v, step).Some?
    ensures Descend(v, Decoded(Token(step))) == Child(v, step)
    ensures '/' !in Token(step)
  {
    match step
    case Key(name) =>
      DecodedEscaped(name);
      EscapedHasNoSlash(name);
    case Index(i) =>
      IntOfNumeral(i);
      NumeralMeans(i);
      NumeralDecodes(Numeral(i));
  }

  lemma {:induction false} NumeralDecodes(s: string)
    requires forall i :: 0 <= i < |s| ==> IsDigit(s[i])
    ensures Decoded(s) == s && '/' !in s
  {
    NothingReplaced(s, '1', "/");
    NothingReplaced(s, '0', "~");
  }

  lemma {:induction false} NothingReplaced(s: string, d: char, next: string)
    requires '~' !in s
    ensures Replaced(s, d, next) == s
  {
    if s != [] {
      NothingReplaced(s[1..], d, next);
      assert [s[0]] + s[1..] == s;
    }
  }

  lemma {:induction false} WalkTokens(v: Json, path: seq<Step>)
    requires ValueAt(v, path).Some?
    ensures Walk(v, Tokens(path)) == Success(ValueAt(v, path).value)
    ensures forall i :: 0 <= i < |Tokens(path)| ==> '/' !in Tokens(path)[i]
  {
    if path != [] {
      TokenDescends(v, path[0]);
      WalkTokens(Child(v, path[0]).value, path[1..]);
      assert Tokens(path)[1..] == Tokens(path[1..]);
    }
  }

  lemma {:induction false} PrintedIsTerminated(path: seq<Step>)
    ensures Printed(path) + "/" == "/" + Terminated(Tokens(path), '/')
  {
    if path != [] {
      PrintedIsTerminated(path[1..]);
      var token := Token(path[0]);
      assert Tokens(path)[1..] == Tokens(path[1..]);
      calc {
        Printed(path) + "/";
        ("/" + token + Printed(path[1..])) + "/";
        "/" + token + (Printed(path[1..]) + "/");
        "/" + token + ("/" + Terminated(Tokens(path[1..]), '/'));
        "/" + (token + "/" + Terminated(Tokens(path[1..]), '/'));
        "/" + Terminated(Tokens(path), '/');
      }
    }
  }

  lemma PrintedSplits(path: seq<Step>)
    requires path != [] && forall i :: 0 <= i < |Tokens(path)| ==> '/' !in Tokens(path)[i]
    ensures Printed(path) != "" && Printed(path)[0] == '/' && Split(Printed(path)[1..], '/') == Tokens(path)
  {
    var raw := Terminated(Tokens(path), '/');
    hide Split, Terminated, Token;
    PrintedIsTerminated(path);
    SplitTerminated(Tokens(path), '/');
    assert Printed(path) == ("/" + raw)[..|raw|];
    assert Printed(path)[1..] == raw[..|raw| - 1];
  }

  /** The pointer printed for a path of keys and in-range indexes resolves to the
      value at that path, in every document. */
  lemma RoundTrip(payload: Json, path: seq<Step>)
    requires ValueAt(payload, path).Some?
    ensures Resolve(payload, Printed(path)) == Success(ValueAt(payload, path).value)
  {
    if path == [] {
      assert Printed(path) == "";
    } else {
      hide Walk, Split, Printed;
      WalkTokens(payload, path);
      PrintedSplits(path);
    }
  }

  /** Whatever a pointer resolves to is the value at some path. */
  lemma {:induction false} WalkFollowsAPath(v: Json, segments: seq<string>) returns (path: seq<Step>)
    requires Walk(v, segments).Success?
    ensures |path| == |segments| && ValueAt(v, path) == Some(Walk(v, segments).value)
  {
    path := [];
    if segments != [] {
      var segment := Decoded(segments[0]);
      var rest := WalkFollowsAPath(Descend(v, segment).value, segments[1..]);
      var step := if v.Object? && segment in v.members then Key(segment) else Index(IntOf(segment).value);
      path := [step] + rest;
      assert path[1..] == rest;
    }
  }

  lemma ResolvesToAPath(payload: Json, pointer: string)
    requires Resolve(payload, pointer).Success?
    ensures exists path :: ValueAt(payload, path) == Some(Resolve(payload, pointer).value)
  {
    var path := [];
    if pointer != "" {
      path := WalkFollowsAPath(payload, Split(pointer[1..], '/'));
    }
    assert ValueAt(payload, path) == Some(Resolve(payload, pointer).value);
  }

  // ------------------------------------------------------------ strict resolution

  /** Section 3 and section 4 in one pass: no `~` but in ~0 and ~1. */
  function Unescaped(s: string): Option<string> {
    if s == [] then
      Some([])
    else if s[0] != '~' then
      Prepended(s[0], Unescaped(s[1..]))
    else if |s| >= 2 && s[1] == '0' then
      Prepended('~', Unescaped(s[2..]))
    else if |s| >= 2 && s[1] == '1' then
      Prepended('/', Unescaped(s[2..]))
    else
      None
  }

  function Prepended(c: char, rest: Option<string>): Option<string> {
    if rest.None? then None else Some([c] + rest.value)
  }

  function UnescapedAll(segments: seq<string>): Option<seq<string>> {
    if segments == [] then
      Some([])
    else
      var first, rest := Unescaped(segments[0]), UnescapedAll(segments[1..]);
      if first.None? || rest.None? then None else Some([first.value] + rest.value)
  }

  /** An index is written as its decimal numeral, without leading zeros. */
  function StrictIndex(token: string): Option<nat> {
    var value := DigitsValue(token);
    if value.Some? && Numeral(value.value) == token then value else None
  }

  function StrictDescend(v: Json, token: string): Option<Json> {
    match v
    case Object(members) => if token in members then Some(members[token]) else None
    case List(items) =>
      var index := StrictIndex(token);
      if index.Some? && index.value < |items| then Some(items[index.value]) else None
    case _ => None
  }

  function StrictWalk(v: Json, tokens: seq<string>): Result<Json, Error> {
    if tokens == [] then
      Success(v)
    else
      var child := StrictDescend(v, tokens[0]);
      if child.None? then Failure(Missing) else StrictWalk(child.value, tokens[1..])
  }

  /** RFC 6901: the pointer is malformed unless it is a list of well-escaped
      tokens; a list takes no token but a numeral. */
  function StrictResolve(payload: Json, pointer: string): Result<Json, Error> {
    if pointer == "" then
      Success(payload)
    else if pointer[0] != '/' then
      Failure(Malformed)
    else
      var tokens := UnescapedAll(Split(pointer[1..], '/'));
      if tokens.None? then Failure(Malformed) else StrictWalk(payload, tokens.value)
  }

  /** Every token of the pointer is well escaped. */
  predicate WellEscaped(pointer: string) {
    pointer == "" || pointer[0] != '/' || UnescapedAll(Split(pointer[1..], '/')).Some?
  }

  /** Every list index that the walk reads in range is written as its numeral. */
  predicate PlainIndexes(v: Json, segments: seq<string>) {
    if segments == [] then
      true
    else
      var token := Decoded(segments[0]);
      var child := Descend(v, token);
      child.None? || ((v.List? ==> token == Numeral(IntOf(token).value)) && PlainIndexes(child.value, segments[1..]))
  }

  predicate Conforms(payload: Json, pointer: string) {
    WellEscaped(pointer)
    && (pointer == "" || pointer[0] != '/' || PlainIndexes(payload, Split(pointer[1..], '/')))
  }

  lemma StrictIndexIsNumeral(token: string, n: nat)
    ensures StrictIndex(token) == Some(n) <==> token == Numeral(n)
  {
    NumeralMeans(n);
  }

  /** On well-escaped tokens the two replacements are the one pass. */
  lemma {:induction false} DecodedIsUnescaped(s: string)
    requires Unescaped(s).Some?
    ensures Decoded(s) == Unescaped(s).value
  {
    if s == [] {
      assert Decoded(s) == [];
    } else if s[0] != '~' {
      var rest := s[1..];
      DecodedIsUnescaped(rest);
      assert s == [s[0]] + rest;
      hide Replaced;
      ReplacedPlain(s[0], rest, '1', "/");
      ReplacedPlain(s[0], Replaced(rest, '1', "/"), '0', "~");
    } else {
      var rest := s[2..];
      DecodedIsUnescaped(rest);
      assert s == ['~', s[1]] + rest;
      hide Replaced;
      if s[1] == '0' {
        ReplacedOther('0', rest, '1', "/");
        ReplacedHit(Replaced(rest, '1', "/"), '0', "~");
      } else {
        ReplacedHit(rest, '1', "/");
        ReplacedPlain('/', Replaced(rest, '1', "/"), '0', "~");
      }
    }
  }

  lemma StrictStep(v: Json, token: string)
    ensures StrictDescend(v, token) ==
      if v.List? && Descend(v, token).Some? && token != Numeral(IntOf(token).value) then None
      else Descend(v, token)
  {
    if v.List? {
      var index, strict := IntOf(token), StrictIndex(token);
      if strict.Some? {
        StrictIndexIsNumeral(token, strict.value);
        IntOfNumeral(strict.value);
      }
      if index.Some? && index.value >= 0 {
        StrictIndexIsNumeral(token, index.value);
      }
    }
  }

  lemma WalkOnlyMisses(v: Json, segments: seq<string>)
    ensures Walk(v, segments).Failure? ==> Walk(v, segments).error == Missing
  {
  }

  /** The strict walk is the walk as long as the indexes are plain, and misses
      otherwise. */
  lemma {:induction false} StrictWalkIs(v: Json, segments: seq<string>)
    requires UnescapedAll(segments).Some?
    ensures StrictWalk(v, UnescapedAll(segments).value) ==
      if PlainIndexes(v, segments) then Walk(v, segments) else Failure(Missing)
  {
    if segments != [] {
      var tokens := UnescapedAll(segments).value;
      var token := Decoded(segments[0]);
      DecodedIsUnescaped(segments[0]);
      assert tokens[0] == token && tokens[1..] == UnescapedAll(segments[1..]).value;
      hide Decoded, Descend, StrictDescend, UnescapedAll, Unescaped, Numeral, IntOf;
      StrictStep(v, token);
      if StrictDescend(v, token).Some? {
        StrictWalkIs(StrictDescend(v, token).value, segments[1..]);
      }
    }
  }

  /** What RFC 6901 resolves, this evaluator resolves to the same value; and what
      this evaluator resolves is what RFC 6901 resolves exactly if the pointer is
      well escaped and its list indexes are plain. */
  lemma StrictlyResolved(payload: Json, pointer: string, v: Json)
    ensures StrictResolve(payload, pointer) == Success(v) <==>
      Resolve(payload, pointer) == Success(v) && Conforms(payload, pointer)
  {
    if pointer != "" && pointer[0] == '/' && WellEscaped(pointer) {
      StrictWalkIs(payload, Split(pointer[1..], '/'));
      hide Split, UnescapedAll, Walk, StrictWalk, PlainIndexes;
    }
  }

  /** The two agree, errors included, exactly if the pointer is well escaped and
      its list indexes are plain or it leads nowhere anyway. */
  lemma AgreesWithStrict(payload: Json, pointer: string)
    ensures Resolve(payload, pointer) == StrictResolve(payload, pointer) <==>
      WellEscaped(pointer) && (Conforms(payload, pointer) || Resolve(payload, pointer).Failure?)
  {
    if pointer != "" && pointer[0] == '/' {
      var segments := Split(pointer[1..], '/');
      WalkOnlyMisses(payload, segments);
      if WellEscaped(pointer) {
        StrictWalkIs(payload, segments);
      }
      hide Split, UnescapedAll, Walk, StrictWalk, PlainIndexes;
    }
  }

  /** A tilde that escapes nothing is taken as it stands. */
  lemma LooserEscapes(v: Json)
    ensures Resolve(Object(map["~2" := v]), "/" + "~2") == Success(v)
    ensures !WellEscaped("/" + "~2")
  {
    SplitOnePiece("~2", '/');
    assert ("/" + "~2")[1..] == "~2";
    assert Replaced("2", '1', "/") == "2" && Replaced("2", '0', "~") == "2";
    assert "~2"[1..] == "2";
    assert Decoded("~2") == "~2";
    hide Split, Decoded, Replaced;
    assert Walk(v, ["~2"][1..]) == Success(v);
  }

  /** More is read as a list index than the digits of section 4: a leading zero,
      a sign, underscores and surrounding spaces are all let through. */
  lemma LooserIndexes(items: seq<Json>)
    requires |items| > 1
    ensures Resolve(List(items), "/" + "01") == Resolve(List(items), "/" + "+1") == Success(items[1])
    ensures Resolve(List(items), "/" + " 1") == Resolve(List(items), "/" + "0_1") == Success(items[1])
  {
    ReadAsOne();
    hide *;
    LoneIndex(items, "01");
    LoneIndex(items, "+1");
    LoneIndex(items, " 1");
    LoneIndex(items, "0_1");
  }

  lemma ReadAsOne()
    ensures IntOf("01") == Some(1) && IntOf("+1") == Some(1) && IntOf(" 1") == Some(1) && IntOf("0_1") == Some(1)
  {
    OneDigit("1", 1);
    OneDigit("0", 0);
    PlainDigits("01");
    PlainDigits("0_1");
    assert "01"[..1] == "0" && "0_1"[..1] == "0" && "+1"[1..] == "1" && " 1"[1..] == "1";
    assert DigitsValue("01") == Some(1) && DigitsValue("0_1") == Some(1);
    assert Stripped("+1") == "+1" && Stripped(" 1") == Stripped("1") == "1";
    hide DigitsValue, Stripped;
  }

  lemma OneDigit(s: string, d: nat)
    requires |s| == 1 && IsDigit(s[0]) && (s[0] - '0') as nat == d
    ensures DigitsValue(s) == Some(d)
  {
  }

  lemma LoneIndex(items: seq<Json>, s: string)
    requires '/' !in s && '~' !in s && IntOf(s) == Some(1) && |items| > 1
    ensures Resolve(List(items), "/" + s) == Success(items[1])
  {
    Lone(s);
    hide IntOf, Split, Decoded;
    assert Walk(items[1], [s][1..]) == Success(items[1]);
  }

  lemma Lone(s: string)
    requires '/' !in s && '~' !in s
    ensures ("/" + s)[1..] == s && Split(s, '/') == [s] && Decoded(s) == s
  {
    SplitOnePiece(s, '/');
    NothingReplaced(s, '1', "/");
    NothingReplaced(s, '0', "~");
  }
}
