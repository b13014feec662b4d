/**
 JSON text after RFC 8259: insignificant whitespace (section 2), objects, arrays, numbers and strings
 (sections 4 to 7).  The parser reads one value off the front of a text; a string keeps its escapes and
 a number its digits, so two texts with equal parses have equal meanings.
 */
module Json {
  type Text = seq<char>

  datatype Value =
    | Null
    | Bool(b: bool)
    | Number(digits: Text)
    | Str(raw: Text)
    | Arr(items: seq<Value>)
    | Obj(members: seq<Member>)

  datatype Member = Member(name: Text, value: Value)

  /** A value and the text after it, or no complete value at the front. */
  datatype Parsed<A> = Fail | Done(value: A, rest: Text)

  predicate IsWs(c: char) { c == ' ' || c == '\t' || c == '\n' || c == '\r' }

  function SkipWs(t: Text): (r: Text)
    ensures |r| <= |t|
    ensures r != [] ==> !IsWs(r[0])
  {
    if t != [] && IsWs(t[0]) then SkipWs(t[1..]) else t
  }

  predicate IsDigit(c: char) { '0' <= c <= '9' }

  predicate IsHex(c: char) { IsDigit(c) || 'a' <= c <= 'f' || 'A' <= c <= 'F' }

  predicate IsShortEscape(c: char) {
    c == '\"' || c == '\\' || c == '/' || c == 'b' || c == 'f' || c == 'n' || c == 'r' || c == 't'
  }

  /** The length of the string element at the front: one character, a two-character escape or a \u escape;
      zero if there is none. */
  function Element(t: Text): (n: nat)
    ensures n <= |t|
  {
    if t == [] || t[0] < ' ' || t[0] == '\"' then 0
    else if t[0] != '\\' then 1
    else if |t| >= 2 && IsShortEscape(t[1]) then 2
    else if |t| >= 6 && t[1] == 'u' && IsHex(t[2]) && IsHex(t[3]) && IsHex(t[4]) && IsHex(t[5]) then 6
    else 0
  }

  /** The rest of a string whose opening quote has been read. */
  function StringBody(t: Text): (r: Parsed<Text>)
    ensures r.Done? ==> |r.rest| < |t|
    decreases |t|
  {
    if t != [] && t[0] == '\"' then Done([], t[1..])
    else if Element(t) == 0 then Fail
    else
      match StringBody(t[Element(t)..])
      case Done(s, r) => Done(t[..Element(t)] + s, r)
      case Fail => Fail
  }

  predicate IsNumChar(c: char) { IsDigit(c) || c == '-' || c == '+' || c == '.' || c == 'e' || c == 'E' }

  /** How many characters at the front can belong to a number. */
  function NumSpan(t: Text): (n: nat)
    ensures n <= |t|
    ensures n < |t| ==> !IsNumChar(t[n])
    ensures forall i :: 0 <= i < n ==> IsNumChar(t[i])
  {
    if t != [] && IsNumChar(t[0]) then 1 + NumSpan(t[1..]) else 0
  }

  predicate Digits(t: Text) { t != [] && forall i :: 0 <= i < |t| ==> IsDigit(t[i]) }

  predicate IsExp(t: Text) {
    t == [] || ((t[0] == 'e' || t[0] == 'E') && |t| > 1 &&
                (if t[1] == '+' || t[1] == '-' then Digits(t[2..]) else Digits(t[1..])))
  }

  function DigitSpan(t: Text): (n: nat)
    ensures n <= |t|
  {
    if t != [] && IsDigit(t[0]) then 1 + DigitSpan(t[1..]) else 0
  }

  /** The number grammar of section 6: sign, integer part without leading zeros, fraction, exponent. */
  predicate ValidNumber(t: Text) {
    var u := if t != [] && t[0] == '-' then t[1..] else t;
    var n := DigitSpan(u);
    && n > 0 && (u[0] == '0' ==> n == 1)
    && var f := u[n..];
       if f != [] && f[0] == '.' then DigitSpan(f[1..]) > 0 && IsExp(f[1..][DigitSpan(f[1..])..]) else IsExp(f)
  }

  predicate StartsWith(t: Text, w: Text) { |w| <= |t| && t[..|w|] == w }

  function Literal(t: Text, w: Text, v: Value): (r: Parsed<Value>)
    ensures r.Done? ==> r.value == v && |r.rest| + |w| == |t|
  {
    if StartsWith(t, w) then Done(v, t[|w|..]) else Fail
  }

  /** A scalar at the front of a text that starts with neither whitespace, quote nor bracket. */
  function Scalar(t: Text): (r: Parsed<Value>)
    ensures r.Done? ==> |r.rest| < |t|
  {
    var n := NumSpan(t);
    if t == [] then Fail
    else if n > 0 then (if ValidNumber(t[..n]) then Done(Number(t[..n]), t[n..]) else Fail)
    else if t[0] == 't' then Literal(t, "true", Bool(true))
    else if t[0] == 'f' then Literal(t, "false", Bool(false))
    else Literal(t, "null", Null)
  }

  function ParseValue(t: Text): (r: Parsed<Value>)
    ensures r.Done? ==> |r.rest| < |t|
    decreases |t|, 0
  {
    var u := SkipWs(t);
    if u == [] then Fail
    else if u[0] == '{' then
      var v := SkipWs(u[1..]);
      if v != [] && v[0] == '}' then Done(Obj([]), v[1..])
      else match Members(u[1..]) case Done(ms, r) => Done(Obj(ms), r) case Fail => Fail
    else if u[0] == '[' then
      var v := SkipWs(u[1..]);
      if v != [] && v[0] == ']' then Done(Arr([]), v[1..])
      else match Items(u[1..]) case Done(vs, r) => Done(Arr(vs), r) case Fail => Fail
    else if u[0] == '\"' then
      match StringBody(u[1..]) case Done(s, r) => Done(Str(s), r) case Fail => Fail
    else Scalar(u)
  }

  /** A quoted name and its colon. */
  function Name(t: Text): (r: Parsed<Text>)
    ensures r.Done? ==> |r.rest| < |t|
  {
    var u := SkipWs(t);
    if u == [] || u[0] != '\"' then Fail
    else
      match StringBody(u[1..])
      case Fail => Fail
      case Done(k, r) =>
        var w := SkipWs(r);
        if w == [] || w[0] != ':' then Fail else Done(k, w[1..])
  }

  /** The members of an object up to and including its closing brace. */
  function Members(t: Text): (r: Parsed<seq<Member>>)
    ensures r.Done? ==> |r.rest| < |t|
    decreases |t|, 1
  {
    match FirstMember(t)
    case Fail => Fail
    case Done(m, r) =>
      var w := SkipWs(r);
      if w != [] && w[0] == '}' then Done([m], w[1..])
      else if w != [] && w[0] == ',' then
        match Members(w[1..]) case Done(ms, r') => Done([m] + ms, r') case Fail => Fail
      else Fail
  }

  function FirstMember(t: Text): (r: Parsed<Member>)
    ensures r.Done? ==> |r.rest| < |t|
    decreases |t|, 0
  {
    match Name(t)
    case Fail => Fail
    case Done(k, r1) =>
      match ParseValue(r1) case Done(v, r2) => Done(Member(k, v), r2) case Fail => Fail
  }

  /** The items of an array up to and including its closing bracket. */
  function Items(t: Text): (r: Parsed<seq<Value>>)
    ensures r.Done? ==> |r.rest| < |t|
    decreases |t|, 1
  {
    match ParseValue(t)
    case Fail => Fail
    case Done(v, r2) =>
      var w := SkipWs(r2);
      if w != [] && w[0] == ']' then Done([v], w[1..])
      else if w != [] && w[0] == ',' then
        match Items(w[1..]) case Done(vs, r) => Done([v] + vs, r) case Fail => Fail
      else Fail
  }

  /** The text is one JSON value, which is v. */
  predicate Denotes(t: Text, v: Value) {
    match ParseValue(t)
    case Done(w, r) => w == v && SkipWs(r) == []
    case Fail => false
  }

  // ----- More text after a complete value does not change it

  lemma TailExtend(t: Text, x: Text)
    requires t != []
    ensures (t + x)[0] == t[0] && (t + x)[1..] == t[1..] + x
  {
  }

  lemma {:induction false} SkipWsExtend(t: Text, x: Text)
    requires SkipWs(t) != []
    ensures SkipWs(t + x) == SkipWs(t) + x
  {
    TailExtend(t, x);
    if IsWs(t[0]) {
      SkipWsExtend(t[1..], x);
    }
  }

  lemma {:induction false} StringExtend(t: Text, x: Text)
    requires StringBody(t).Done?
    ensures StringBody(t + x) == Done(StringBody(t).value, StringBody(t).rest + x)
    decreases |t|
  {
    if t[0] == '\"' {
      TailExtend(t, x);
    } else {
      var n := Element(t);
      assert Element(t + x) == n;
      assert (t + x)[n..] == t[n..] + x && (t + x)[..n] == t[..n];
      StringExtend(t[n..], x);
    }
  }

  lemma {:induction false} NumSpanExtend(t: Text, x: Text)
    requires NumSpan(t) < |t| || x == [] || !IsNumChar(x[0])
    ensures NumSpan(t + x) == NumSpan(t)
  {
    if t == [] {
      assert t + x == x;
    } else {
      TailExtend(t, x);
      if IsNumChar(t[0]) {
        NumSpanExtend(t[1..], x);
      }
    }
  }

  /** A number at the very end of a text could go on; nothing else can. */
  predicate Closed(v: Value, r: Text, x: Text) {
    v.Number? && r == [] && x != [] ==> !IsNumChar(x[0])
  }

  lemma LiteralExtend(t: Text, x: Text, w: Text, v: Value)
    requires Literal(t, w, v).Done?
    ensures Literal(t + x, w, v) == Done(v, Literal(t, w, v).rest + x)
  {
    assert (t + x)[..|w|] == t[..|w|] && (t + x)[|w|..] == t[|w|..] + x;
  }

  lemma ScalarExtend(t: Text, x: Text)
    requires Scalar(t).Done? && Closed(Scalar(t).value, Scalar(t).rest, x)
    ensures Scalar(t + x) == Done(Scalar(t).value, Scalar(t).rest + x)
  {
    var n := NumSpan(t);
    assert (t + x)[0] == t[0];
    if n > 0 {
      NumSpanExtend(t, x);
      assert (t + x)[..n] == t[..n] && (t + x)[n..] == t[n..] + x;
    } else if t[0] == 't' {
      LiteralExtend(t, x, "true", Bool(true));
    } else if t[0] == 'f' {
      LiteralExtend(t, x, "false", Bool(false));
    } else {
      LiteralExtend(t, x, "null", Null);
    }
  }

  lemma NameExtend(t: Text, x: Text)
    requires Name(t).Done?
    ensures Name(t + x) == Done(Name(t).value, Name(t).rest + x)
  {
    var u := SkipWs(t);
    SkipWsExtend(t, x);
    TailExtend(u, x);
    StringExtend(u[1..], x);
    var r := StringBody(u[1..]).rest;
    SkipWsExtend(r, x);
    TailExtend(SkipWs(r), x);
  }

  lemma {:induction false} ValueExtend(t: Text, x: Text)
    requires ParseValue(t).Done? && Closed(ParseValue(t).value, ParseValue(t).rest, x)
    ensures ParseValue(t + x) == Done(ParseValue(t).value, ParseValue(t).rest + x)
    decreases |t|, 0
  {
    var u := SkipWs(t);
    SkipWsExtend(t, x);
    TailExtend(u, x);
    if u[0] == '{' || u[0] == '[' {
      var v := SkipWs(u[1..]);
      SkipWsExtendAny(u[1..], x);
      if v != [] && (v[0] == '}' || v[0] == ']') {
        TailExtend(v, x);
      }
      if u[0] == '{' && !(v != [] && v[0] == '}') {
        MembersExtend(u[1..], x);
      } else if u[0] == '[' && !(v != [] && v[0] == ']') {
        ItemsExtend(u[1..], x);
      }
    } else if u[0] == '\"' {
      StringExtend(u[1..], x);
    } else {
      ScalarExtend(u, x);
    }
  }

  lemma SkipWsExtendAny(t: Text, x: Text)
    ensures SkipWs(t) != [] ==> SkipWs(t + x) == SkipWs(t) + x
  {
    if SkipWs(t) != [] {
      SkipWsExtend(t, x);
    }
  }

  lemma {:induction false} FirstMemberExtend(t: Text, x: Text)
    requires FirstMember(t).Done? && FirstMember(t).rest != []
    ensures FirstMember(t + x) == Done(FirstMember(t).value, FirstMember(t).rest + x)
    decreases |t|, 0
  {
    NameExtend(t, x);
    ValueExtend(Name(t).rest, x);
  }

  lemma MembersUnfold(t: Text, m: Member, r: Text)
    requires FirstMember(t) == Done(m, r)
    ensures var w := SkipWs(r);
            && (w != [] && w[0] == '}' ==> Members(t) == Done([m], w[1..]))
            && (w != [] && w[0] == ',' && Members(w[1..]).Done? ==>
                  Members(t) == Done([m] + Members(w[1..]).value, Members(w[1..]).rest))
            && (Members(t).Done? ==> w != [] && (w[0] == '}' || (w[0] == ',' && Members(w[1..]).Done?)))
  {
  }

  lemma {:induction false} MembersExtend(t: Text, x: Text)
    requires Members(t).Done?
    ensures Members(t + x) == Done(Members(t).value, Members(t).rest + x)
    decreases |t|, 1
  {
    var m, r := FirstMember(t).value, FirstMember(t).rest;
    var w := SkipWs(r);
    MembersUnfold(t, m, r);
    FirstMemberExtend(t, x);
    SkipWsExtend(r, x);
    TailExtend(w, x);
    if w[0] == ',' {
      MembersExtend(w[1..], x);
    }
    MembersUnfold(t + x, m, r + x);
  }

  lemma ItemsUnfold(t: Text, v: Value, r: Text)
    requires ParseValue(t) == Done(v, r)
    ensures var w := SkipWs(r);
            && (w != [] && w[0] == ']' ==> Items(t) == Done([v], w[1..]))
            && (w != [] && w[0] == ',' && Items(w[1..]).Done? ==>
                  Items(t) == Done([v] + Items(w[1..]).value, Items(w[1..]).rest))
            && (Items(t).Done? ==> w != [] && (w[0] == ']' || (w[0] == ',' && Items(w[1..]).Done?)))
  {
  }

  lemma {:induction false} ItemsExtend(t: Text, x: Text)
    requires Items(t).Done?
    ensures Items(t + x) == Done(Items(t).value, Items(t).rest + x)
    decreases |t|, 1
  {
    var v, r := ParseValue(t).value, ParseValue(t).rest;
    var w := SkipWs(r);
    ItemsUnfold(t, v, r);
    ValueExtend(t, x);
    SkipWsExtend(r, x);
    TailExtend(w, x);
    if w[0] == ',' {
      ItemsExtend(w[1..], x);
    }
    ItemsUnfold(t + x, v, r + x);
  }
}
