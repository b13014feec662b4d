/** Removing the newlines of a JSON text does not change its value: newlines occur only as whitespace between
    tokens (section 2 of RFC 8259), never inside strings (section 7), and no two scalars are adjacent. */
module JsonNewlines {
  import opened Json

  /** strings.Replace(t, "\n", "", -1) */
  function RemoveNewlines(t: Text): (r: Text)
    ensures |r| <= |t|
    ensures '\n' !in r
  {
    if t == [] then []
    else if t[0] == '\n' then RemoveNewlines(t[1..])
    else [t[0]] + RemoveNewlines(t[1..])
  }

  lemma {:induction false} RemoveConcat(a: Text, b: Text)
    ensures RemoveNewlines(a + b) == RemoveNewlines(a) + RemoveNewlines(b)
  {
    if a == [] {
      assert a + b == b;
    } else {
      assert (a + b)[0] == a[0] && (a + b)[1..] == a[1..] + b;
      RemoveConcat(a[1..], b);
    }
  }

  lemma {:induction false} RemoveNothing(t: Text)
    requires '\n' !in t
    ensures RemoveNewlines(t) == t
  {
    if t != [] {
      RemoveNothing(t[1..]);
    }
  }

  /** A text that starts with n characters other than newline keeps them. */
  lemma RemoveAfter(t: Text, n: nat)
    requires n <= |t| && '\n' !in t[..n]
    ensures RemoveNewlines(t) == t[..n] + RemoveNewlines(t[n..])
  {
    assert t == t[..n] + t[n..];
    RemoveConcat(t[..n], t[n..]);
    RemoveNothing(t[..n]);
  }

  /** The same for the first character, in the shape the parser takes texts apart. */
  lemma RemoveHead(t: Text)
    requires t != [] && t[0] != '\n'
    ensures RemoveNewlines(t) != [] && RemoveNewlines(t)[0] == t[0]
    ensures RemoveNewlines(t)[1..] == RemoveNewlines(t[1..])
  {
  }

  lemma {:induction false} SkipWsRemove(t: Text)
    ensures SkipWs(RemoveNewlines(t)) == RemoveNewlines(SkipWs(t))
  {
    if t != [] && IsWs(t[0]) {
      SkipWsRemove(t[1..]);
      if t[0] != '\n' {
        RemoveHead(t);
      }
    } else if t != [] {
      RemoveHead(t);
    }
  }

  lemma ElementRemove(t: Text)
    requires Element(t) > 0
    ensures '\n' !in t[..Element(t)]
    ensures Element(RemoveNewlines(t)) == Element(t)
    ensures RemoveNewlines(t) == t[..Element(t)] + RemoveNewlines(t[Element(t)..])
  {
    var n := Element(t);
    assert forall i :: 0 <= i < n ==> t[..n][i] == t[i] && t[i] != '\n';
    RemoveAfter(t, n);
    assert forall i :: 0 <= i < n ==> RemoveNewlines(t)[i] == t[i];
  }

  lemma {:induction false} StringRemove(t: Text)
    requires StringBody(t).Done?
    ensures StringBody(RemoveNewlines(t)) == Done(StringBody(t).value, RemoveNewlines(StringBody(t).rest))
    decreases |t|
  {
    if t[0] == '\"' {
      RemoveHead(t);
    } else {
      var n := Element(t);
      ElementRemove(t);
      StringRemove(t[n..]);
      var u := RemoveNewlines(t);
      assert u[n..] == RemoveNewlines(t[n..]) && u[..n] == t[..n];
      assert u[0] == t[0];
    }
  }

  /** What follows the value cannot be read as part of it once the newlines are gone. */
  predicate StaysClosed(v: Value, r: Text) {
    v.Number? ==> RemoveNewlines(r) == [] || !IsNumChar(RemoveNewlines(r)[0])
  }

  lemma {:induction false} ClosedByToken(v: Value, r: Text)
    requires SkipWs(r) != [] && !IsNumChar(SkipWs(r)[0])
    ensures StaysClosed(v, r)
  {
    if r[0] == '\n' {
      ClosedByToken(v, r[1..]);
    } else {
      RemoveHead(r);
    }
  }

  lemma {:induction false} NumSpanSplit(a: Text, b: Text)
    requires forall i :: 0 <= i < |a| ==> IsNumChar(a[i])
    requires b == [] || !IsNumChar(b[0])
    ensures NumSpan(a + b) == |a|
  {
    if a == [] {
      assert a + b == b;
    } else {
      assert (a + b)[0] == a[0] && (a + b)[1..] == a[1..] + b;
      NumSpanSplit(a[1..], b);
    }
  }

  lemma LiteralRemove(t: Text, w: Text, v: Value)
    requires Literal(t, w, v).Done? && '\n' !in w
    ensures Literal(RemoveNewlines(t), w, v) == Done(v, RemoveNewlines(Literal(t, w, v).rest))
  {
    RemoveAfter(t, |w|);
    var u := RemoveNewlines(t);
    assert u[..|w|] == w && u[|w|..] == RemoveNewlines(t[|w|..]);
  }

  lemma NumberRemove(t: Text)
    requires NumSpan(t) > 0 && Scalar(t).Done? && StaysClosed(Scalar(t).value, Scalar(t).rest)
    ensures Scalar(RemoveNewlines(t)) == Done(Scalar(t).value, RemoveNewlines(Scalar(t).rest))
  {
    var n := NumSpan(t);
    assert forall i :: 0 <= i < n ==> t[..n][i] == t[i];
    RemoveAfter(t, n);
    var u := RemoveNewlines(t);
    NumSpanSplit(t[..n], RemoveNewlines(t[n..]));
    assert u[..n] == t[..n] && u[n..] == RemoveNewlines(t[n..]);
  }

  lemma ScalarRemove(t: Text)
    requires Scalar(t).Done? && StaysClosed(Scalar(t).value, Scalar(t).rest)
    ensures Scalar(RemoveNewlines(t)) == Done(Scalar(t).value, RemoveNewlines(Scalar(t).rest))
  {
    if NumSpan(t) > 0 {
      NumberRemove(t);
    } else {
      assert t[0] != '\n';
      RemoveHead(t);
      if t[0] == 't' {
        LiteralRemove(t, "true", Bool(true));
      } else if t[0] == 'f' {
        LiteralRemove(t, "false", Bool(false));
      } else {
        LiteralRemove(t, "null", Null);
      }
    }
  }

  lemma NameRemove(t: Text)
    requires Name(t).Done?
    ensures Name(RemoveNewlines(t)) == Done(Name(t).value, RemoveNewlines(Name(t).rest))
  {
    var u := SkipWs(t);
    SkipWsRemove(t);
    RemoveHead(u);
    StringRemove(u[1..]);
    var r := StringBody(u[1..]).rest;
    SkipWsRemove(r);
    RemoveHead(SkipWs(r));
  }

  lemma {:induction false} ValueRemove(t: Text)
    requires ParseValue(t).Done? && StaysClosed(ParseValue(t).value, ParseValue(t).rest)
    ensures ParseValue(RemoveNewlines(t)) == Done(ParseValue(t).value, RemoveNewlines(ParseValue(t).rest))
    decreases |t|, 0
  {
    var u := SkipWs(t);
    SkipWsRemove(t);
    RemoveHead(u);
    if u[0] == '{' || u[0] == '[' {
      var v := SkipWs(u[1..]);
      SkipWsRemove(u[1..]);
      if v != [] {
        RemoveHead(v);
      }
      if u[0] == '{' && !(v != [] && v[0] == '}') {
        MembersRemove(u[1..]);
      } else if u[0] == '[' && !(v != [] && v[0] == ']') {
        ItemsRemove(u[1..]);
      }
    } else if u[0] == '\"' {
      StringRemove(u[1..]);
    } else {
      ScalarRemove(u);
    }
  }

  lemma {:induction false} FirstMemberRemove(t: Text)
    requires FirstMember(t).Done? && StaysClosed(FirstMember(t).value.value, FirstMember(t).rest)
    ensures FirstMember(RemoveNewlines(t)) == Done(FirstMember(t).value, RemoveNewlines(FirstMember(t).rest))
    decreases |t|, 0
  {
    NameRemove(t);
    ValueRemove(Name(t).rest);
  }

  lemma {:induction false} MembersRemove(t: Text)
    requires Members(t).Done?
    ensures Members(RemoveNewlines(t)) == Done(Members(t).value, RemoveNewlines(Members(t).rest))
    decreases |t|, 1
  {
    var m, r := FirstMember(t).value, FirstMember(t).rest;
    var w := SkipWs(r);
    ClosedByToken(m.value, r);
    FirstMemberRemove(t);
    SkipWsRemove(r);
    RemoveHead(w);
    if w[0] == ',' {
      MembersRemove(w[1..]);
    }
  }

  lemma {:induction false} ItemsRemove(t: Text)
    requires Items(t).Done?
    ensures Items(RemoveNewlines(t)) == Done(Items(t).value, RemoveNewlines(Items(t).rest))
    decreases |t|, 1
  {
    var v, r := ParseValue(t).value, ParseValue(t).rest;
    var w := SkipWs(r);
    ClosedByToken(v, r);
    ValueRemove(t);
    SkipWsRemove(r);
    RemoveHead(w);
    if w[0] == ',' {
      ItemsRemove(w[1..]);
    }
  }

  /** A text that denotes a value denotes the same value without its newlines. */
  lemma NewlinesAreInsignificant(t: Text, v: Value)
    requires Denotes(t, v)
    ensures Denotes(RemoveNewlines(t), v)
  {
    var r := ParseValue(t).rest;
    WhitespaceCloses(v, r);
    ValueRemove(t);
    SkipWsRemove(r);
  }

  lemma {:induction false} WhitespaceCloses(v: Value, r: Text)
    requires SkipWs(r) == []
    ensures StaysClosed(v, r)
  {
    if r != [] {
      if r[0] == '\n' {
        WhitespaceCloses(v, r[1..]);
      } else {
        RemoveHead(r);
      }
    }
  }
}
