/** The frames that EmitWatchEvent writes, and why a client can cut the byte stream back into events. */
module Framing {
  import opened Json
  import opened JsonNewlines

  datatype EventType = Added | Modified | Deleted

  function TypeName(ty: EventType): Text {
    match ty
    case Added => "ADDED"
    case Modified => "MODIFIED"
    case Deleted => "DELETED"
  }

  /** An event whose object has been encoded to JSON text. */
  datatype Encoded = Encoded(ty: EventType, text: Text)

  /** The text is one JSON value. */
  predicate ValidText(t: Text) { ParseValue(t).Done? && SkipWs(ParseValue(t).rest) == [] }

  /** The value a valid text denotes. */
  function TextValue(t: Text): Value {
    match ParseValue(t) case Done(v, _) => v case Fail => Null
  }

  /** The bytes of one event: type, object without newlines, no separator. */
  function Frame(e: Encoded): Text {
    "{\"type\":\"" + TypeName(e.ty) + "\",\"object\":" + RemoveNewlines(e.text) + "}"
  }

  function EventValue(ty: EventType, v: Value): Value {
    Obj([Member("type", Str(TypeName(ty))), Member("object", v)])
  }

  // ----- One frame

  function Quote(s: Text): Text { "\"" + s + "\"" }

  predicate Plain(s: Text) { forall i :: 0 <= i < |s| ==> s[i] >= ' ' && s[i] != '\"' && s[i] != '\\' }

  lemma {:induction false} PlainString(s: Text, x: Text)
    requires Plain(s)
    ensures StringBody(s + "\"" + x) == Done(s, x)
  {
    var t := s + "\"" + x;
    if s == [] {
      assert t[1..] == x;
    } else {
      assert Element(t) == 1;
      assert t[1..] == s[1..] + "\"" + x;
      PlainString(s[1..], x);
      assert t[..1] + s[1..] == s;
    }
  }

  lemma PlainName(s: Text, x: Text)
    requires Plain(s)
    ensures Name(Quote(s) + ":" + x) == Done(s, x)
  {
    var t := Quote(s) + ":" + x;
    assert SkipWs(t) == t;
    assert t[1..] == s + "\"" + (":" + x);
    PlainString(s, ":" + x);
    assert SkipWs(":" + x) == ":" + x;
    assert (":" + x)[1..] == x;
  }

  lemma PlainValue(s: Text, x: Text)
    requires Plain(s)
    ensures ParseValue(Quote(s) + x) == Done(Str(s), x)
  {
    var t := Quote(s) + x;
    assert SkipWs(t) == t;
    assert t[1..] == s + "\"" + x;
    PlainString(s, x);
  }

  lemma {:induction false} SkipWsOver(r: Text, y: Text)
    requires SkipWs(r) == []
    ensures SkipWs(r + y) == SkipWs(y)
  {
    if r == [] {
      assert r + y == y;
    } else {
      assert (r + y)[0] == r[0] && (r + y)[1..] == r[1..] + y;
      SkipWsOver(r[1..], y);
    }
  }

  /** The last member of a frame: the object and the closing brace. */
  lemma ObjectMember(text: Text, x: Text)
    requires ValidText(text)
    ensures Members(Quote("object") + ":" + (text + ("}" + x))) == Done([Member("object", TextValue(text))], x)
  {
    var t := Quote("object") + ":" + (text + ("}" + x));
    PlainName("object", text + ("}" + x));
    ValueExtend(text, "}" + x);
    var r := ParseValue(text).rest;
    SkipWsOver(r, "}" + x);
    assert SkipWs("}" + x) == "}" + x;
    assert ("}" + x)[1..] == x;
  }

  lemma TypeMember(ty: EventType, x: Text)
    ensures FirstMember(Quote("type") + ":" + (Quote(TypeName(ty)) + x)) == Done(Member("type", Str(TypeName(ty))), x)
  {
    PlainName("type", Quote(TypeName(ty)) + x);
    PlainValue(TypeName(ty), x);
  }

  lemma BothMembers(ty: EventType, text: Text, x: Text)
    requires ValidText(text)
    ensures Members(Quote("type") + ":" + (Quote(TypeName(ty)) + ("," + (Quote("object") + ":" + (text + ("}" + x))))))
            == Done([Member("type", Str(TypeName(ty))), Member("object", TextValue(text))], x)
  {
    var o := Quote("object") + ":" + (text + ("}" + x));
    TypeMember(ty, "," + o);
    assert SkipWs("," + o) == "," + o;
    assert ("," + o)[1..] == o;
    ObjectMember(text, x);
    assert [Member("type", Str(TypeName(ty)))] + [Member("object", TextValue(text))]
        == [Member("type", Str(TypeName(ty))), Member("object", TextValue(text))];
  }

  lemma Regroup(a: Text, b: Text, c: Text, d: Text, e: Text, x: Text)
    ensures a + b + c + d + e + x == a + (b + (c + (d + (e + x))))
  {
  }

  lemma OpeningShape(n: Text, y: Text)
    ensures "{\"type\":\"" + (n + ("\",\"object\":" + y))
            == "{" + (Quote("type") + ":" + (Quote(n) + ("," + (Quote("object") + ":" + y))))
  {
    assert "{\"type\":\"" == "{" + Quote("type") + ":" + "\"";
    assert "\",\"object\":" == "\"" + "," + Quote("object") + ":";
  }

  lemma FrameShape(e: Encoded, x: Text)
    ensures Frame(e) + x == "{" + (Quote("type") + ":" + (Quote(TypeName(e.ty))
            + ("," + (Quote("object") + ":" + (RemoveNewlines(e.text) + ("}" + x))))))
  {
    Regroup("{\"type\":\"", TypeName(e.ty), "\",\"object\":", RemoveNewlines(e.text), "}", x);
    OpeningShape(TypeName(e.ty), RemoveNewlines(e.text) + ("}" + x));
  }

  /** Whatever follows it, a frame parses to its event and leaves what follows. */
  lemma FrameParses(e: Encoded, x: Text)
    requires ValidText(e.text)
    ensures ParseValue(Frame(e) + x) == Done(EventValue(e.ty, TextValue(e.text)), x)
    ensures var name := if e.ty == Added then "ADDED" else if e.ty == Modified then "MODIFIED" else "DELETED";
            EventValue(e.ty, TextValue(e.text)) == Obj([Member("type", Str(name)), Member("object", TextValue(e.text))])
  {
    var d := RemoveNewlines(e.text);
    NewlinesAreInsignificant(e.text, TextValue(e.text));
    FrameShape(e, x);
    BothMembers(e.ty, d, x);
    var t := Frame(e) + x;
    var inner := Quote("type") + ":" + (Quote(TypeName(e.ty)) + ("," + (Quote("object") + ":" + (d + ("}" + x)))));
    assert SkipWs(t) == t && t[0] == '{' && t[1..] == inner;
    assert SkipWs(inner) == inner && inner[0] == '\"';
  }

  lemma FrameNotEmpty(e: Encoded)
    ensures |Frame(e)| > 0 && Frame(e)[0] == '{'
  {
  }

  /** A text that is one bracketed value, to its end, has no proper prefix that holds a value. */
  lemma NoShorterValue(p: Text, f: Text)
    requires p <= f && p != f && f != [] && f[0] == '{' && ParseValue(f).Done? && ParseValue(f).rest == []
    ensures ParseValue(p).Fail?
  {
    if ParseValue(p).Done? {
      var x := f[|p|..];
      assert p + x == f && p[0] == f[0];
      BracedIsObject(p);
      ValueExtend(p, x);
      assert false;
    }
  }

  lemma BracedIsObject(p: Text)
    requires p != [] && p[0] == '{' && ParseValue(p).Done?
    ensures ParseValue(p).value.Obj?
  {
    assert SkipWs(p) == p;
  }

  /** No proper prefix of a frame holds a complete value. */
  lemma FrameIsPrefixFree(e: Encoded, p: Text)
    requires ValidText(e.text) && p <= Frame(e) && p != Frame(e)
    ensures ParseValue(p).Fail?
  {
    FrameNotEmpty(e);
    var f := Frame(e);
    assert f + [] == f;
    FrameParses(e, []);
    NoShorterValue(p, f);
  }

  // ----- The stream

  /** The complete values at the front of a text, and what is left after them. */
  function Decode(t: Text): seq<Value>
    decreases |t|
  {
    match ParseValue(t) case Done(v, r) => [v] + Decode(r) case Fail => []
  }

  function Leftover(t: Text): Text
    decreases |t|
  {
    match ParseValue(t) case Done(v, r) => Leftover(r) case Fail => t
  }

  function Concat(ts: seq<Text>): Text {
    if ts == [] then [] else ts[0] + Concat(ts[1..])
  }

  function Frames(es: seq<Encoded>): (fs: seq<Text>)
    ensures |fs| == |es|
    ensures forall i :: 0 <= i < |es| ==> fs[i] == Frame(es[i])
  {
    if es == [] then [] else [Frame(es[0])] + Frames(es[1..])
  }

  function Stream(es: seq<Encoded>): Text { Concat(Frames(es)) }

  predicate AllValid(es: seq<Encoded>) { forall i :: 0 <= i < |es| ==> ValidText(es[i].text) }

  function Values(es: seq<Encoded>): (vs: seq<Value>)
    ensures |vs| == |es|
    ensures forall i :: 0 <= i < |es| ==> vs[i] == EventValue(es[i].ty, TextValue(es[i].text))
  {
    if es == [] then [] else [EventValue(es[0].ty, TextValue(es[0].text))] + Values(es[1..])
  }

  lemma StreamHead(es: seq<Encoded>)
    requires es != []
    ensures Stream(es) == Frame(es[0]) + Stream(es[1..])
  {
    assert Frames(es)[1..] == Frames(es[1..]);
  }

  lemma DecodeCons(t: Text, v: Value, r: Text)
    requires ParseValue(t) == Done(v, r)
    ensures Decode(t) == [v] + Decode(r) && Leftover(t) == Leftover(r)
  {
  }

  lemma StreamHeadMore(es: seq<Encoded>, tail: Text)
    requires es != []
    ensures Stream(es) + tail == Frame(es[0]) + (Stream(es[1..]) + tail)
  {
    StreamHead(es);
    Assoc(Frame(es[0]), Stream(es[1..]), tail);
  }

  lemma DecodeFrame(e: Encoded, x: Text)
    requires ValidText(e.text)
    ensures Decode(Frame(e) + x) == [EventValue(e.ty, TextValue(e.text))] + Decode(x)
    ensures Leftover(Frame(e) + x) == Leftover(x)
  {
    FrameParses(e, x);
    DecodeCons(Frame(e) + x, EventValue(e.ty, TextValue(e.text)), x);
  }

  /** The complete frames of a stream come back as their events; a piece without a complete value stays over. */
  lemma {:induction false} DecodeFrames(es: seq<Encoded>, tail: Text)
    requires AllValid(es) && ParseValue(tail).Fail?
    ensures Decode(Stream(es) + tail) == Values(es) && Leftover(Stream(es) + tail) == tail
  {
    if es == [] {
      assert Stream(es) + tail == tail;
    } else {
      StreamHeadMore(es, tail);
      DecodeFrame(es[0], Stream(es[1..]) + tail);
      DecodeFrames(es[1..], tail);
    }
  }

  lemma {:induction false} ConcatAppend(ts: seq<Text>, t: Text)
    ensures Concat(ts + [t]) == Concat(ts) + t
  {
    if ts == [] {
      assert ts + [t] == [t];
    } else {
      assert (ts + [t])[1..] == ts[1..] + [t];
      ConcatAppend(ts[1..], t);
    }
  }

  /** The first bytes of a concatenation are some complete texts and a proper prefix of the next. */
  lemma {:induction false} SplitPrefix(ts: seq<Text>, p: Text) returns (k: nat, tail: Text)
    requires p <= Concat(ts)
    ensures k <= |ts| && p == Concat(ts[..k]) + tail
    ensures if k == |ts| then tail == [] else tail <= ts[k] && tail != ts[k]
  {
    if ts == [] {
      k, tail := 0, [];
    } else if |p| < |ts[0]| {
      k, tail := 0, p;
      assert p == ts[0][..|p|];
    } else {
      var f := ts[0];
      assert p[..|f|] == f && Concat(ts)[|f|..] == Concat(ts[1..]);
      k, tail := SplitPrefix(ts[1..], p[|f|..]);
      assert ts[1..][..k] == ts[..k + 1][1..];
      assert p == f + p[|f|..];
      k := k + 1;
    }
  }

  lemma FramesTake(es: seq<Encoded>, k: nat)
    requires k <= |es|
    ensures Frames(es)[..k] == Frames(es[..k])
  {
  }

  lemma ConcatTake(ts: seq<Text>, k: nat)
    requires k < |ts|
    ensures Concat(ts[..k + 1]) == Concat(ts[..k]) + ts[k]
  {
    assert ts[..k + 1] == ts[..k] + [ts[k]];
    ConcatAppend(ts[..k], ts[k]);
  }

  lemma StreamSnoc(es: seq<Encoded>, k: nat)
    requires k < |es|
    ensures Stream(es[..k + 1]) == Stream(es[..k]) + Frame(es[k])
  {
    FramesTake(es, k);
    FramesTake(es, k + 1);
    ConcatTake(Frames(es), k);
  }

  /** Framing is self-delimiting: any number of bytes of a stream decode to exactly the events whose frames are
      complete in them. */
  lemma DecodePrefix(es: seq<Encoded>, p: Text) returns (k: nat)
    requires AllValid(es) && p <= Stream(es)
    ensures k <= |es| && Decode(p) == Values(es[..k])
    ensures |Stream(es[..k])| <= |p| && (k < |es| ==> |p| < |Stream(es[..k + 1])|)
  {
    var tail;
    k, tail := SplitPrefix(Frames(es), p);
    FramesTake(es, k);
    if k < |es| {
      FrameIsPrefixFree(es[k], tail);
      StreamSnoc(es, k);
    }
    DecodeFrames(es[..k], tail);
  }

  /** Two event lists with the same bytes are the same events. */
  lemma StreamDeterminesEvents(a: seq<Encoded>, b: seq<Encoded>)
    requires AllValid(a) && AllValid(b) && Stream(a) == Stream(b)
    ensures Values(a) == Values(b)
  {
    DecodeFrames(a, []);
    DecodeFrames(b, []);
    assert Stream(a) + [] == Stream(a) && Stream(b) + [] == Stream(b);
  }

  // ----- A client that gets the stream in chunks

  /** Decode what is complete once a chunk has arrived, and keep the rest for the next one. */
  function Feed(done: seq<Value>, rest: Text, chunks: seq<Text>): (seq<Value>, Text)
    decreases |chunks|
  {
    if chunks == [] then (done, rest)
    else Feed(done + Decode(rest + chunks[0]), Leftover(rest + chunks[0]), chunks[1..])
  }

  lemma Assoc<A>(a: seq<A>, b: seq<A>, c: seq<A>)
    ensures a + b + c == a + (b + c)
  {
  }

  predicate NoNumbers(vs: seq<Value>) { forall i :: 0 <= i < |vs| ==> !vs[i].Number? }

  lemma {:induction false} DecodeMore(t: Text, x: Text)
    requires NoNumbers(Decode(t))
    ensures Decode(t + x) == Decode(t) + Decode(Leftover(t) + x)
    ensures Leftover(t + x) == Leftover(Leftover(t) + x)
    decreases |t|
  {
    if ParseValue(t).Done? {
      var v, r := ParseValue(t).value, ParseValue(t).rest;
      assert Decode(t)[0] == v && Decode(r) == Decode(t)[1..];
      ValueExtend(t, x);
      DecodeMore(r, x);
      DecodeCons(t, v, r);
      DecodeCons(t + x, v, r + x);
      Assoc([v], Decode(r), Decode(Leftover(r) + x));
    } else {
      assert [] + Decode(t + x) == Decode(t + x);
    }
  }

  lemma {:induction false} FeedIsDecode(t: Text, chunks: seq<Text>)
    requires forall p: Text :: p <= t + Concat(chunks) ==> NoNumbers(Decode(p))
    ensures Feed(Decode(t), Leftover(t), chunks) == (Decode(t + Concat(chunks)), Leftover(t + Concat(chunks)))
    decreases |chunks|
  {
    if chunks == [] {
      assert t + Concat(chunks) == t;
    } else {
      assert t <= t + Concat(chunks);
      DecodeMore(t, chunks[0]);
      assert t + Concat(chunks) == t + chunks[0] + Concat(chunks[1..]);
      FeedIsDecode(t + chunks[0], chunks[1..]);
    }
  }

  /** Whatever the chunking, a client that decodes as it reads ends up with the events of the complete frames. */
  lemma ChunkingIsInvisible(es: seq<Encoded>, chunks: seq<Text>) returns (k: nat)
    requires AllValid(es) && Concat(chunks) <= Stream(es)
    ensures k <= |es| && Feed([], [], chunks).0 == Values(es[..k])
    ensures |Stream(es[..k])| <= |Concat(chunks)| && (k < |es| ==> |Concat(chunks)| < |Stream(es[..k + 1])|)
  {
    var c := Concat(chunks);
    forall p: Text | p <= [] + c ensures NoNumbers(Decode(p)) {
      assert p <= Stream(es);
      var j := DecodePrefix(es, p);
    }
    FeedIsDecode([], chunks);
    assert [] + c == c;
    k := DecodePrefix(es, c);
  }
}
