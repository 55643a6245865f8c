/** Name-value pairs of section 3.4 of the FastCGI Specification 1.0 (fcgi_state.c). */
module FcgiParam {
  import opened Options

  type byte = x: int | 0 <= x < 256
  type bytes = seq<byte>

  /** Lengths have 31 bits: the first bit selects the four-byte form. */
  const MAX_LENGTH: nat := 0x8000_0000

  datatype Param = Param(name: bytes, value: bytes)

  predicate Encodable(p: Param) {
    |p.name| < MAX_LENGTH && |p.value| < MAX_LENGTH
  }

  // The wire format.

  function EncodeLength(n: nat): (r: bytes)
    requires n < MAX_LENGTH
    ensures |r| == if n > 127 then 4 else 1
  {
    if n > 127 then [128 + n / 0x100_0000, n / 0x1_0000 % 256, n / 0x100 % 256, n % 256] else [n]
  }

  function EncodeParam(p: Param): (r: bytes)
    requires Encodable(p)
    ensures |r| == |EncodeLength(|p.name|)| + |EncodeLength(|p.value|)| + |p.name| + |p.value|
  {
    EncodeLength(|p.name|) + EncodeLength(|p.value|) + p.name + p.value
  }

  function EncodeParams(ps: seq<Param>): bytes
    requires forall i :: 0 <= i < |ps| ==> Encodable(ps[i])
  {
    if ps == [] then [] else EncodeParam(ps[0]) + EncodeParams(ps[1..])
  }

  // The parser.

  datatype ParseResult = NoParam | Parsed(param: Param, used: nat)

  /** A byte of the content. The decoder may look at up to four bytes past the end; it then
      always gives up, so what it sees there does not matter. */
  function At(b: bytes, i: nat): byte {
    if i < |b| then b[i] else 0
  }

  function LengthWidth(b: bytes, i: nat): nat {
    if At(b, i) >= 128 then 4 else 1
  }

  function LengthAt(b: bytes, i: nat): nat {
    if At(b, i) >= 128 then
      (At(b, i) - 128) * 0x100_0000 + At(b, i + 1) * 0x1_0000 + At(b, i + 2) * 0x100 + At(b, i + 3)
    else At(b, i)
  }

  /** fcgi_param_parse on the bytes that are left of the content. */
  function ParseParam(b: bytes): (r: ParseResult)
    ensures r.Parsed? ==> 2 <= r.used <= |b|
  {
    if |b| < 2 then NoParam
    else
      var name, w := LengthAt(b, 0), LengthWidth(b, 0);
      if |b| < w then NoParam
      else
        var value, w' := LengthAt(b, w), LengthWidth(b, w);
        var start := w + w';
        if |b| < start || name + value > |b| - start then NoParam
        else Parsed(Param(b[start..start + name], b[start + name..start + name + value]), start + name + value)
  }

  /** The pairs fcgi_param_list_parse appends for one record. */
  function ParseParams(b: bytes): seq<Param>
    decreases |b|
  {
    match ParseParam(b)
    case NoParam => []
    case Parsed(p, used) => [p] + ParseParams(b[used..])
  }

  lemma LengthRoundTrip(n: nat, before: bytes, rest: bytes)
    requires n < MAX_LENGTH
    ensures var b := before + EncodeLength(n) + rest;
            LengthAt(b, |before|) == n && LengthWidth(b, |before|) == |EncodeLength(n)|
  {
    var b := before + EncodeLength(n) + rest;
    var e := EncodeLength(n);
    assert forall i :: 0 <= i < |e| ==> b[|before| + i] == e[i];
    if n > 127 {
      assert n / 0x1_0000 == n / 0x100_0000 * 256 + n / 0x1_0000 % 256;
      assert n / 0x100 == n / 0x1_0000 * 256 + n / 0x100 % 256;
      assert n == n / 0x100 * 256 + n % 256;
    }
  }

  /** Decoding an encoded pair gives the pair and its size back, whatever follows, in all four
      combinations of one-byte and four-byte lengths. */
  lemma ParamRoundTrip(p: Param, rest: bytes)
    requires Encodable(p)
    ensures ParseParam(EncodeParam(p) + rest) == Parsed(p, |EncodeParam(p)|)
  {
    hide EncodeLength, LengthAt, LengthWidth;
    var b := EncodeParam(p) + rest;
    var n, v := EncodeLength(|p.name|), EncodeLength(|p.value|);
    LengthRoundTrip(|p.name|, [], v + p.name + p.value + rest);
    assert b == [] + n + (v + p.name + p.value + rest);
    LengthRoundTrip(|p.value|, n, p.name + p.value + rest);
    assert b == n + v + (p.name + p.value + rest);
    var start := |n| + |v|;
    assert b[start..start + |p.name|] == p.name;
    assert b[start + |p.name|..start + |p.name| + |p.value|] == p.value;
  }

  lemma ConsAppend<T>(s: seq<T>, t: seq<T>)
    requires |s| > 0
    ensures [s[0]] + (s[1..] + t) == s + t
  {
  }

  lemma ParseParamsStep(b: bytes, p: Param, used: nat)
    requires ParseParam(b) == Parsed(p, used)
    ensures ParseParams(b) == [p] + ParseParams(b[used..])
  {
  }

  /** List decoding inverts concatenation of encodings, and then goes on with what follows. */
  lemma {:induction false} ParamsRoundTrip(ps: seq<Param>, rest: bytes)
    requires forall i :: 0 <= i < |ps| ==> Encodable(ps[i])
    ensures ParseParams(EncodeParams(ps) + rest) == ps + ParseParams(rest)
    decreases |ps|
  {
    hide EncodeParam, ParseParam, ParseParams;
    if ps == [] {
      assert EncodeParams(ps) + rest == rest;
    } else {
      var e, tail := EncodeParam(ps[0]), EncodeParams(ps[1..]);
      var b := EncodeParams(ps) + rest;
      assert b == e + (tail + rest);
      ParamRoundTrip(ps[0], tail + rest);
      ParseParamsStep(b, ps[0], |e|);
      assert b[|e|..] == tail + rest;
      ParamsRoundTrip(ps[1..], rest);
      ConsAppend(ps, ParseParams(rest));
    }
  }

  lemma {:induction false} EncodeParamsAppend(ps: seq<Param>, p: Param)
    requires forall i :: 0 <= i < |ps| ==> Encodable(ps[i])
    requires Encodable(p)
    ensures EncodeParams(ps + [p]) == EncodeParams(ps) + EncodeParam(p)
    decreases |ps|
  {
    hide EncodeParam;
    if ps == [] {
      assert [p][1..] == [];
    } else {
      EncodeParamsAppend(ps[1..], p);
      assert (ps + [p])[1..] == ps[1..] + [p];
    }
  }

  /** Section 3.4 byte by byte: one byte below 128, else four with the highest bit set, high byte
      first; both lengths before both contents. */
  lemma LengthOnWire(n: nat)
    requires n < MAX_LENGTH
    ensures var e := EncodeLength(n);
            if n < 128 then e == [n]
            else |e| == 4 && e[0] >= 128 && n == (e[0] as int - 128) * 0x100_0000 + e[1] as int * 0x1_0000 + e[2] as int * 0x100 + e[3]
  {
    if n >= 128 {
      HighByteFirst(n);
    }
  }

  lemma HighByteFirst(n: nat)
    requires n < MAX_LENGTH
    ensures n / 0x100_0000 < 128
    ensures n == n / 0x100_0000 * 0x100_0000 + n / 0x1_0000 % 256 * 0x1_0000 + n / 0x100 % 256 * 0x100 + n % 256
  {
    assert n / 0x1_0000 == n / 0x100_0000 * 256 + n / 0x1_0000 % 256;
    assert n / 0x100 == n / 0x1_0000 * 256 + n / 0x100 % 256;
    assert n == n / 0x100 * 256 + n % 256;
  }

  lemma PairOnWire()
    ensures EncodeParam(Param([65], [66, 67])) == [1, 2, 65, 66, 67]
    ensures EncodeLength(0x0102_0304) == [129, 2, 3, 4]
  {
  }

  /** A record that ends inside a pair gives the pairs before it and nothing of that pair. */
  lemma CutPairIsLost(ps: seq<Param>, p: Param, k: nat)
    requires (forall i :: 0 <= i < |ps| ==> Encodable(ps[i])) && Encodable(p) && k < |EncodeParam(p)|
    ensures ParseParams(EncodeParams(ps) + EncodeParam(p)[..k]) == ps
  {
    ParamsRoundTrip(ps, EncodeParam(p)[..k]);
    CutPair(p, k);
    assert ps + [] == ps;
  }

  lemma CutPair(p: Param, k: nat)
    requires Encodable(p) && k < |EncodeParam(p)|
    ensures ParseParam(EncodeParam(p)[..k]) == NoParam
  {
    var b, cut := EncodeParam(p), EncodeParam(p)[..k];
    var n, v := EncodeLength(|p.name|), EncodeLength(|p.value|);
    var start := |n| + |v|;
    LengthRoundTrip(|p.name|, [], v + p.name + p.value);
    assert b == [] + n + (v + p.name + p.value);
    LengthRoundTrip(|p.value|, n, p.name + p.value);
    assert b == n + v + (p.name + p.value);
    assert forall i :: 0 <= i < k ==> cut[i] == b[i];
    if k >= start {
      SameLength(b, cut, 0, |n|);
      SameLength(b, cut, |n|, |v|);
    } else if k > |n| {
      SameLength(b, cut, 0, |n|);
    }
  }

  lemma SameLength(b: bytes, cut: bytes, i: nat, w: nat)
    requires |cut| <= |b| && i + w <= |cut| && LengthWidth(b, i) == w
    requires forall j :: 0 <= j < |cut| ==> cut[j] == b[j]
    ensures LengthWidth(cut, i) == w && LengthAt(cut, i) == LengthAt(b, i)
  {
  }

  // C strings.

  /** The bytes before the first NUL. */
  function CString(b: bytes): (s: bytes)
    ensures 0 !in s && s <= b
  {
    if b == [] || b[0] == 0 then [] else [b[0]] + CString(b[1..])
  }

  /** The parameter list of a session. */
  class ParamList {
    var params: seq<Param>

    constructor ()
      ensures params == []
    {
      params := [];
    }

    /** fcgi_param_list_parse */
    method Parse(content: bytes)
      modifies this
      ensures params == old(params) + ParseParams(content)
    {
      var rest := content;
      var go := true;
      while go && |rest| > 0
        invariant go ==> params + ParseParams(rest) == old(params) + ParseParams(content)
        invariant !go ==> params == old(params) + ParseParams(content)
        decreases |rest| + if go then 1 else 0
      {
        match ParseParam(rest) {
          case Parsed(p, used) =>
            params := params + [p];
            rest := rest[used..];
          case NoParam =>
            go := false;
        }
      }
    }

    /** fcgi_param_list_find: the value of the first entry with this name. */
    method Find(name: bytes) returns (value: Option<bytes>)
      ensures value.None? <==> forall i :: 0 <= i < |params| ==> CString(params[i].name) != name
      ensures value.Some? ==>
                exists i :: 0 <= i < |params| && CString(params[i].name) == name && params[i].value == value.value
                            && forall j :: 0 <= j < i ==> CString(params[j].name) != name
    {
      var i := 0;
      while i < |params|
        invariant 0 <= i <= |params|
        invariant forall j :: 0 <= j < i ==> CString(params[j].name) != name
      {
        if CString(params[i].name) == name {
          return Some(params[i].value);
        }
        i := i + 1;
      }
      value := None;
    }
  }

  // The writer.

  /** AssertionFailed: one of the two asserts before the copies stops the program. */
  datatype WriteResult = TooSmall | AssertionFailed | Written(size: nat)

  /** memcpy of data to position `at` of s. */
  function Splice(s: bytes, at: nat, data: bytes): bytes
    requires at + |data| <= |s|
  {
    s[..at] + data + s[at + |data|..]
  }

  lemma SpliceAt(s: bytes, at: nat, data: bytes)
    requires at + |data| <= |s|
    ensures |Splice(s, at, data)| == |s|
    ensures forall i :: 0 <= i < |s| ==> Splice(s, at, data)[i] == if at <= i < at + |data| then data[i - at] else s[i]
  {
  }

  lemma SpliceTwice(s: bytes, at: nat, a: bytes, b: bytes)
    requires at + |a| + |b| <= |s|
    ensures Splice(Splice(s, at, a), at + |a|, b) == Splice(s, at, a + b)
  {
  }

  lemma SpliceNext(s: bytes, at: nat, data: bytes, i: nat)
    requires i < |data| && at + |data| <= |s|
    ensures |Splice(s, at, data[..i])| == |s|
    ensures Splice(s, at, data[..i])[at + i := data[i]] == Splice(s, at, data[..i + 1])
  {
  }

  method Put(buffer: array<byte>, at: nat, data: bytes)
    requires at + |data| <= buffer.Length
    modifies buffer
    ensures buffer[..] == Splice(old(buffer[..]), at, data)
  {
    var i := 0;
    while i < |data|
      invariant 0 <= i <= |data|
      invariant buffer[..] == Splice(old(buffer[..]), at, data[..i])
    {
      ghost var was := buffer[..];
      SpliceNext(old(buffer[..]), at, data, i);
      buffer[at + i] := data[i];
      assert buffer[..] == was[at + i := data[i]];
      i := i + 1;
    }
    assert data[..i] == data;
  }

  /** fcgi_param_list_write at position `at` of a buffer with `len` bytes of room. It reports
      lack of room exactly when the encoding does not fit; with exactly the needed room its own
      assertions fail; with any more it writes the encoding and touches nothing else. */
  method WriteParam(buffer: array<byte>, at: nat, len: nat, name: bytes, value: bytes) returns (r: WriteResult)
    requires at + len <= buffer.Length && Encodable(Param(name, value))
    modifies buffer
    ensures var size := |EncodeParam(Param(name, value))|;
            && (r.TooSmall? <==> len < size)
            && (r.AssertionFailed? <==> len == size)
            && (r.Written? ==> r.size == size && buffer[..] == Splice(old(buffer[..]), at, EncodeParam(Param(name, value))))
  {
    ghost var b0 := buffer[..];
    var namelen, datalen := |name|, |value|;
    var pos, room := at, len;
    var nameHead := EncodeLength(namelen);
    if room < namelen + |nameHead| {
      return TooSmall;
    }
    Put(buffer, pos, nameHead);
    ghost var b1 := buffer[..];
    pos, room := pos + |nameHead|, room - |nameHead|;

    var valueHead := EncodeLength(datalen);
    if room < namelen + datalen + |valueHead| {
      return TooSmall;
    }
    Put(buffer, pos, valueHead);
    ghost var b2 := buffer[..];
    pos, room := pos + |valueHead|, room - |valueHead|;

    if !(room > namelen) {
      return AssertionFailed;
    }
    Put(buffer, pos, name);
    ghost var b3 := buffer[..];
    pos, room := pos + namelen, room - namelen;
    if !(room > datalen) {
      return AssertionFailed;
    }
    Put(buffer, pos, value);
    SpliceFour(b0, at, nameHead, valueHead, name, value, b1, b2, b3, buffer[..]);
    r := Written(pos - at + datalen);
  }

  lemma SpliceFour(b0: bytes, at: nat, p: bytes, q: bytes, r: bytes, s: bytes, b1: bytes, b2: bytes, b3: bytes, b4: bytes)
    requires at + |p| + |q| + |r| + |s| <= |b0|
    requires b1 == Splice(b0, at, p) && b2 == Splice(b1, at + |p|, q)
    requires b3 == Splice(b2, at + |p| + |q|, r) && b4 == Splice(b3, at + |p| + |q| + |r|, s)
    ensures b4 == Splice(b0, at, p + q + r + s)
  {
    SpliceTwice(b0, at, p, q);
    SpliceTwice(b0, at, p + q, r);
    SpliceTwice(b0, at, p + q + r, s);
  }
}
