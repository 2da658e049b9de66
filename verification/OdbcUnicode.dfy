/**
  Wide-character text from ODBC: code units arrive in chunks, are assembled
  into scalar values and stored as UTF-8. The references are the decoders of
  section 2.2 of RFC 2781 and of sections 3 and 4 of RFC 3629.
*/
module OdbcUnicode {
  import opened Wrappers

  /** `pending` is a high surrogate waiting for its partner, or 0. */
  datatype Text = Text(pending: nat, text: seq<nat>)

  datatype Outcome = Outcome(ok: bool, state: Text)

  predicate Surrogate(cp: nat) { 0xD800 <= cp <= 0xDFFF }

  predicate High(u: nat) { 0xD800 <= u <= 0xDBFF }

  predicate Low(u: nat) { 0xDC00 <= u <= 0xDFFF }

  predicate Scalar(cp: nat) { cp <= 0x10FFFF && !Surrogate(cp) }

  /** The bytes pushed for one code point. */
  function Encode(cp: nat): seq<nat> {
    if cp < 0x80 then [cp]
    else if cp < 0x800 then [0xC0 + cp / 0x40, 0x80 + cp % 0x40]
    else if cp < 0x10000 then [0xE0 + cp / 0x1000, 0x80 + cp / 0x40 % 0x40, 0x80 + cp % 0x40]
    else [0xF0 + cp / 0x40000, 0x80 + cp / 0x1000 % 0x40, 0x80 + cp / 0x40 % 0x40, 0x80 + cp % 0x40]
  }

  /** The shifts and masks of the source, on 32-bit words, are these divisions and remainders. */
  lemma BitForms(cp: bv32)
    requires cp <= 0x10FFFF
    ensures cp < 0x800 ==> 0xC0 | (cp >> 6) == 0xC0 + cp / 0x40
    ensures cp < 0x10000 ==> 0xE0 | (cp >> 12) == 0xE0 + cp / 0x1000
    ensures 0xF0 | (cp >> 18) == 0xF0 + cp / 0x40000
    ensures 0x80 | ((cp >> 12) & 0x3F) == 0x80 + cp / 0x1000 % 0x40
    ensures 0x80 | ((cp >> 6) & 0x3F) == 0x80 + cp / 0x40 % 0x40
    ensures 0x80 | (cp & 0x3F) == 0x80 + cp % 0x40
    ensures 0xD800 <= cp <= 0xDBFF ==> (cp - 0xD800) << 10 == (cp - 0xD800) * 0x400
  {
  }

  // ------------------------------------------------------------------- append

  /** One turn of the loop; `narrow` when units are 16 bits wide. */
  function Push(s: Text, u: nat, narrow: bool): Outcome {
    if narrow && s.pending != 0 then
      if Low(u) && s.pending >= 0xD800
      then Emit(Text(0, s.text), 0x10000 + (s.pending - 0xD800) * 0x400 + (u - 0xDC00)) else Outcome(false, s)
    else if narrow && High(u) then Outcome(true, Text(u, s.text))
    else if narrow && Low(u) then Outcome(false, s)
    else Emit(s, u)
  }

  function Emit(s: Text, cp: nat): Outcome {
    if Scalar(cp) then Outcome(true, Text(s.pending, s.text + Encode(cp))) else Outcome(false, s)
  }

  /** append: stops at the first unit it rejects. */
  function Append(s: Text, units: seq<nat>, narrow: bool): Outcome
    decreases |units|
  {
    if units == [] then Outcome(true, s) else
    var first := Push(s, units[0], narrow);
    if first.ok then Append(first.state, units[1..], narrow) else first
  }

  function AppendChunks(s: Text, chunks: seq<seq<nat>>, narrow: bool): Outcome
    decreases |chunks|
  {
    if chunks == [] then Outcome(true, s) else
    var first := Append(s, chunks[0], narrow);
    if first.ok then AppendChunks(first.state, chunks[1..], narrow) else first
  }

  function Flatten(chunks: seq<seq<nat>>): seq<nat> {
    if chunks == [] then [] else chunks[0] + Flatten(chunks[1..])
  }

  lemma {:induction false} AppendConcat(s: Text, a: seq<nat>, b: seq<nat>, narrow: bool)
    ensures var first := Append(s, a, narrow);
      Append(s, a + b, narrow) == if first.ok then Append(first.state, b, narrow) else first
    decreases |a|
  {
    if a == [] {
      assert a + b == b;
    } else {
      assert (a + b)[0] == a[0] && (a + b)[1..] == a[1..] + b;
      var first := Push(s, a[0], narrow);
      if first.ok { AppendConcat(first.state, a[1..], b, narrow); }
    }
  }

  /** Cutting the input into chunks changes nothing: same verdict, same text, same pending unit. */
  lemma {:induction false} ChunkingIsInvisible(s: Text, chunks: seq<seq<nat>>, narrow: bool)
    ensures AppendChunks(s, chunks, narrow) == Append(s, Flatten(chunks), narrow)
    decreases |chunks|
  {
    if chunks != [] {
      AppendConcat(s, chunks[0], Flatten(chunks[1..]), narrow);
      var first := Append(s, chunks[0], narrow);
      if first.ok { ChunkingIsInvisible(first.state, chunks[1..], narrow); }
    }
  }

  // --------------------------------------------------------------- references

  function Cons(cp: nat, rest: Option<seq<nat>>): Option<seq<nat>> {
    if rest.Some? then Some([cp] + rest.value) else None
  }

  /** Section 2.2 of RFC 2781. */
  function DecodeUtf16(units: seq<nat>): Option<seq<nat>> {
    if units == [] then Some([])
    else if !Surrogate(units[0]) then Cons(units[0], DecodeUtf16(units[1..]))
    else if !High(units[0]) || |units| == 1 || !Low(units[1]) then None
    else Cons(units[0] % 0x400 * 0x400 + units[1] % 0x400 + 0x10000, DecodeUtf16(units[2..]))
  }

  predicate Tail(b: nat) { 0x80 <= b <= 0xBF }

  /** Sections 3 and 4 of RFC 3629, with the restricted second bytes. */
  function DecodeUtf8(b: seq<nat>): Option<seq<nat>> {
    if b == [] then Some([])
    else if b[0] <= 0x7F then Cons(b[0], DecodeUtf8(b[1..]))
    else if 0xC2 <= b[0] <= 0xDF && |b| >= 2 && Tail(b[1]) then
      Cons((b[0] - 0xC0) * 0x40 + (b[1] - 0x80), DecodeUtf8(b[2..]))
    else if 0xE0 <= b[0] <= 0xEF && |b| >= 3 && Tail(b[1]) && Tail(b[2])
            && (b[0] == 0xE0 ==> b[1] >= 0xA0) && (b[0] == 0xED ==> b[1] <= 0x9F) then
      Cons((b[0] - 0xE0) * 0x1000 + (b[1] - 0x80) * 0x40 + (b[2] - 0x80), DecodeUtf8(b[3..]))
    else if 0xF0 <= b[0] <= 0xF4 && |b| >= 4 && Tail(b[1]) && Tail(b[2]) && Tail(b[3])
            && (b[0] == 0xF0 ==> b[1] >= 0x90) && (b[0] == 0xF4 ==> b[1] <= 0x8F) then
      Cons((b[0] - 0xF0) * 0x40000 + (b[1] - 0x80) * 0x1000 + (b[2] - 0x80) * 0x40 + (b[3] - 0x80), DecodeUtf8(b[4..]))
    else None
  }

  function EncodeAll(cps: seq<nat>): seq<nat> {
    if cps == [] then [] else Encode(cps[0]) + EncodeAll(cps[1..])
  }

  // ---------------------------------------------------------------- UTF-8 side

  lemma {:induction false} Encode3Shape(cp: nat)
    requires 0x800 <= cp < 0x10000 && !Surrogate(cp)
    ensures var b := Encode(cp);
      && |b| == 3 && 0xE0 <= b[0] <= 0xEF && Tail(b[1]) && Tail(b[2])
      && (b[0] == 0xE0 ==> b[1] >= 0xA0) && (b[0] == 0xED ==> b[1] <= 0x9F)
      && (b[0] - 0xE0) * 0x1000 + (b[1] - 0x80) * 0x40 + (b[2] - 0x80) == cp
  {
    var q := cp / 0x40;
    assert cp / 0x1000 == q / 0x40;
  }

  lemma {:induction false} Encode4Shape(cp: nat)
    requires 0x10000 <= cp <= 0x10FFFF
    ensures var b := Encode(cp);
      && |b| == 4 && 0xF0 <= b[0] <= 0xF4 && Tail(b[1]) && Tail(b[2]) && Tail(b[3])
      && (b[0] == 0xF0 ==> b[1] >= 0x90) && (b[0] == 0xF4 ==> b[1] <= 0x8F)
      && (b[0] - 0xF0) * 0x40000 + (b[1] - 0x80) * 0x1000 + (b[2] - 0x80) * 0x40 + (b[3] - 0x80) == cp
  {
    var q := cp / 0x40;
    var r := q / 0x40;
    assert cp / 0x1000 == r && cp / 0x40000 == r / 0x40;
  }

  lemma {:induction false} DecodesFirst(cp: nat, rest: seq<nat>)
    requires Scalar(cp)
    ensures DecodeUtf8(Encode(cp) + rest) == Cons(cp, DecodeUtf8(rest))
  {
    var b := Encode(cp) + rest;
    assert b[|Encode(cp)|..] == rest;
    if 0x800 <= cp < 0x10000 {
      Encode3Shape(cp);
      assert b[0] == Encode(cp)[0] && b[1] == Encode(cp)[1] && b[2] == Encode(cp)[2];
    } else if cp >= 0x10000 {
      Encode4Shape(cp);
      assert b[0] == Encode(cp)[0] && b[1] == Encode(cp)[1] && b[2] == Encode(cp)[2] && b[3] == Encode(cp)[3];
    }
  }

  /** What was encoded is well-formed UTF-8 and decodes to the same scalar values. */
  lemma {:induction false} Utf8RoundTrip(cps: seq<nat>)
    requires forall cp <- cps :: Scalar(cp)
    ensures DecodeUtf8(EncodeAll(cps)) == Some(cps)
  {
    if cps != [] {
      assert cps[0] in cps;
      Utf8RoundTrip(cps[1..]);
      DecodesFirst(cps[0], EncodeAll(cps[1..]));
      assert [cps[0]] + cps[1..] == cps;
    }
  }

  // --------------------------------------------------------------- UTF-16 side

  predicate Units16(units: seq<nat>) { forall i :: 0 <= i < |units| ==> units[i] < 0x10000 }

  lemma {:induction false} PairValue(a: nat, b: nat)
    requires High(a) && Low(b)
    ensures a % 0x400 * 0x400 + b % 0x400 + 0x10000 == 0x10000 + (a - 0xD800) * 0x400 + (b - 0xDC00)
    ensures Scalar(a % 0x400 * 0x400 + b % 0x400 + 0x10000)
  {
    assert a == 0x36 * 0x400 + (a - 0xD800) && b == 0x37 * 0x400 + (b - 0xDC00);
  }

  lemma {:induction false} ScalarsOnly(units: seq<nat>)
    requires Units16(units) && DecodeUtf16(units).Some?
    ensures forall cp <- DecodeUtf16(units).value :: Scalar(cp)
    decreases |units|
  {
    if units != [] {
      if !Surrogate(units[0]) {
        ScalarsOnly(units[1..]);
      } else {
        PairValue(units[0], units[1]);
        ScalarsOnly(units[2..]);
      }
    }
  }

  /** The verdict and the text of a whole append, from a state with nothing pending. */
  ghost predicate Agrees(t: seq<nat>, units: seq<nat>, r: Outcome) {
    && (r.ok && r.state.pending == 0 <==> DecodeUtf16(units).Some?)
    && (DecodeUtf16(units).Some? ==> r.state.text == t + EncodeAll(DecodeUtf16(units).value))
  }

  lemma {:induction false} PushPair(s: Text, a: nat, b: nat, rest: seq<nat>)
    requires s.pending == 0 && High(a) && Low(b)
    ensures Append(s, [a, b] + rest, true)
         == Append(Text(0, s.text + Encode(a % 0x400 * 0x400 + b % 0x400 + 0x10000)), rest, true)
  {
    var units := [a, b] + rest;
    PairValue(a, b);
    assert units[1..] == [b] + rest;
    assert ([b] + rest)[1..] == rest;
    assert Push(s, a, true) == Outcome(true, Text(a, s.text));
    var cp := 0x10000 + (a - 0xD800) * 0x400 + (b - 0xDC00);
    assert Push(Text(a, s.text), b, true) == Outcome(true, Text(0, s.text + Encode(cp)));
    assert Append(Text(a, s.text), [b] + rest, true) == Append(Text(0, s.text + Encode(cp)), rest, true);
  }

  lemma {:induction false} AppendAgrees(s: Text, units: seq<nat>)
    requires s.pending == 0 && Units16(units)
    ensures Agrees(s.text, units, Append(s, units, true))
    decreases |units|
  {
    hide Encode;
    if units == [] {
      assert s.text + [] == s.text;
    } else if !Surrogate(units[0]) {
      var next := Text(0, s.text + Encode(units[0]));
      assert Push(s, units[0], true) == Outcome(true, next);
      AppendAgrees(next, units[1..]);
      Extends(s.text, units[0], DecodeUtf16(units[1..]));
    } else if !High(units[0]) {
      assert !Push(s, units[0], true).ok;
    } else if |units| == 1 {
      assert Push(s, units[0], true) == Outcome(true, Text(units[0], s.text));
      assert Append(Text(units[0], s.text), units[1..], true) == Outcome(true, Text(units[0], s.text));
    } else if !Low(units[1]) {
      assert Push(s, units[0], true) == Outcome(true, Text(units[0], s.text));
      assert !Append(Text(units[0], s.text), units[1..], true).ok;
    } else {
      var cp := units[0] % 0x400 * 0x400 + units[1] % 0x400 + 0x10000;
      assert units == [units[0], units[1]] + units[2..];
      PushPair(s, units[0], units[1], units[2..]);
      AppendAgrees(Text(0, s.text + Encode(cp)), units[2..]);
      Extends(s.text, cp, DecodeUtf16(units[2..]));
    }
  }

  lemma {:induction false} Extends(t: seq<nat>, cp: nat, rest: Option<seq<nat>>)
    ensures rest.Some? ==> t + EncodeAll(Cons(cp, rest).value) == t + Encode(cp) + EncodeAll(rest.value)
  {
    if rest.Some? { assert ([cp] + rest.value)[1..] == rest.value; }
  }

  /** However it is cut, UTF-16 input is accepted and complete exactly when it is well-formed,
      and then the text is well-formed UTF-8 for exactly its scalar values. */
  lemma {:induction false} Utf16Becomes8(chunks: seq<seq<nat>>)
    requires Units16(Flatten(chunks))
    ensures var r, decoded := AppendChunks(Text(0, []), chunks, true), DecodeUtf16(Flatten(chunks));
      && (r.ok && r.state.pending == 0 <==> decoded.Some?)
      && (decoded.Some? ==> DecodeUtf8(r.state.text) == decoded)
  {
    var units := Flatten(chunks);
    ChunkingIsInvisible(Text(0, []), chunks, true);
    AppendAgrees(Text(0, []), units);
    if DecodeUtf16(units).Some? {
      ScalarsOnly(units);
      Utf8RoundTrip(DecodeUtf16(units).value);
      assert [] + EncodeAll(DecodeUtf16(units).value) == EncodeAll(DecodeUtf16(units).value);
    }
  }

  lemma {:induction false} Append32(s: Text, units: seq<nat>)
    requires s.pending == 0
    ensures var r := Append(s, units, false);
      && (r.ok <==> forall u <- units :: Scalar(u))
      && (r.ok ==> r.state == Text(0, s.text + EncodeAll(units)))
    decreases |units|
  {
    hide Encode;
    if units == [] {
      assert s.text + [] == s.text;
    } else {
      assert forall u :: u in units <==> u == units[0] || u in units[1..];
      if Scalar(units[0]) {
        var next := Text(0, s.text + Encode(units[0]));
        assert Push(s, units[0], false) == Outcome(true, next);
        Append32(next, units[1..]);
        assert s.text + Encode(units[0]) + EncodeAll(units[1..]) == s.text + EncodeAll(units);
      } else {
        assert !Push(s, units[0], false).ok;
      }
    }
  }

  /** The same for 32-bit units: accepted exactly when every unit is a scalar value, and nothing is ever pending. */
  lemma {:induction false} Utf32Becomes8(chunks: seq<seq<nat>>)
    ensures var r := AppendChunks(Text(0, []), chunks, false);
      && (r.ok <==> forall u <- Flatten(chunks) :: Scalar(u))
      && (r.ok ==> r.state.pending == 0 && DecodeUtf8(r.state.text) == Some(Flatten(chunks)))
  {
    ChunkingIsInvisible(Text(0, []), chunks, false);
    Append32(Text(0, []), Flatten(chunks));
    if forall u <- Flatten(chunks) :: Scalar(u) {
      Utf8RoundTrip(Flatten(chunks));
      assert [] + EncodeAll(Flatten(chunks)) == EncodeAll(Flatten(chunks));
    }
  }

  // --------------------------------------------------------------- the object

  class OdbcWideText {
    const narrow: bool
    var pending: nat
    var text: seq<nat>

    constructor (narrow: bool)
      ensures this.narrow == narrow && View() == Text(0, [])
    {
      this.narrow := narrow;
      pending, text := 0, [];
    }

    ghost function View(): Text reads this { Text(pending, text) }

    ghost predicate Valid() reads this { pending == 0 || (narrow && High(pending)) }

    method append(units: seq<nat>) returns (ok: bool)
      requires Valid()
      modifies this
      ensures Valid() && Outcome(ok, View()) == Append(old(View()), units, narrow)
    {
      hide Encode;
      for i := 0 to |units|
        invariant Valid() && Append(View(), units[i..], narrow) == Append(old(View()), units, narrow)
      {
        var cp := units[i];
        assert units[i..][0] == cp && units[i..][1..] == units[i + 1..];
        if narrow {
          if pending != 0 {
            if cp < 0xDC00 || cp > 0xDFFF { return false; }
            cp := 0x10000 + (pending - 0xD800) * 0x400 + (cp - 0xDC00);
            pending := 0;
          } else if 0xD800 <= cp <= 0xDBFF {
            pending := cp;
            continue;
          } else if 0xDC00 <= cp <= 0xDFFF {
            return false;
          }
        }
        if cp > 0x10FFFF || 0xD800 <= cp <= 0xDFFF { return false; }
        text := text + Encode(cp);
      }
      ok := true;
    }

    method complete() returns (done: bool)
      ensures done <==> View().pending == 0
    {
      done := pending == 0;
    }
  }
}
