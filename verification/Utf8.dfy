/** UTF-8 as in section 3 of RFC 3629, and the split of a request path into SCRIPT_NAME and PATH_INFO. */
module Utf8 {
  import opened Contexts

  type Byte = b: nat | b < 256
  type Bytes = seq<Byte>

  /** A character of a Python string. */
  type CodePoint = c: nat | c <= 0x10FFFF

  predicate Surrogate(c: CodePoint) {
    0xD800 <= c <= 0xDFFF
  }

  predicate Encodable(s: seq<CodePoint>) {
    forall c :: c in s ==> !Surrogate(c)
  }

  function EncodeOne(c: CodePoint): (bs: Bytes)
    ensures 1 <= |bs| <= 4
  {
    if c < 0x80 then [c]
    else if c < 0x800 then [0xC0 + c / 0x40, 0x80 + c % 0x40]
    else if c < 0x10000 then [0xE0 + c / 0x1000, 0x80 + c / 0x40 % 0x40, 0x80 + c % 0x40]
    else [0xF0 + c / 0x40000, 0x80 + c / 0x1000 % 0x40, 0x80 + c / 0x40 % 0x40, 0x80 + c % 0x40]
  }

  function Encode(s: seq<CodePoint>): Bytes {
    if s == [] then [] else EncodeOne(s[0]) + Encode(s[1..])
  }

  /** The length of a sequence, from its first octet; 0 if none begins so. */
  function Width(first: Byte): nat {
    if first < 0x80 then 1
    else if first < 0xC0 then 0
    else if first < 0xE0 then 2
    else if first < 0xF0 then 3
    else if first < 0xF8 then 4
    else 0
  }

  function Tail(b: nat): nat {
    b % 0x40
  }

  predicate Continues(b: Byte) {
    0x80 <= b < 0xC0
  }

  /** The least character that needs w octets. */
  function Least(w: nat): nat {
    if w <= 1 then 0 else if w == 2 then 0x80 else if w == 3 then 0x800 else 0x10000
  }

  /** The first character and the octets it takes: the rest of them continuation octets, and not more than it needs. */
  function DecodeOne(bs: Bytes): Option<(nat, nat)> {
    if bs == [] || Width(bs[0]) == 0 || |bs| < Width(bs[0]) then None
    else
      var w := Width(bs[0]);
      var value :=
        if w == 1 then bs[0]
        else if w == 2 then bs[0] % 0x20 * 0x40 + Tail(bs[1])
        else if w == 3 then bs[0] % 0x10 * 0x1000 + Tail(bs[1]) * 0x40 + Tail(bs[2])
        else bs[0] % 0x08 * 0x40000 + Tail(bs[1]) * 0x1000 + Tail(bs[2]) * 0x40 + Tail(bs[3]);
      if (forall k :: 1 <= k < w ==> Continues(bs[k])) && Least(w) <= value <= 0x10FFFF then Some((value, w)) else None
  }

  /** Whatever follows, the first character of an encoding can be read back. */
  lemma DecodeEncoded(c: CodePoint, rest: Bytes)
    ensures DecodeOne(EncodeOne(c) + rest) == Some((c, |EncodeOne(c)|))
  {
    var e := EncodeOne(c);
    var bs := e + rest;
    assert forall k :: 0 <= k < |e| ==> bs[k] == e[k];
    if 0x80 <= c < 0x800 {
      Two(c);
    } else if 0x800 <= c < 0x10000 {
      Three(c);
    } else if 0x10000 <= c {
      Four(c);
    }
  }

  lemma Two(c: nat)
    requires 0x80 <= c < 0x800
    ensures 0x80 <= 0xC0 + c / 0x40 < 0xE0
    ensures (0xC0 + c / 0x40) % 0x20 * 0x40 + Tail(0x80 + c % 0x40) == c
  {
  }

  lemma Three(c: nat)
    requires 0x800 <= c < 0x10000
    ensures 0xE0 <= 0xE0 + c / 0x1000 < 0xF0
    ensures (0xE0 + c / 0x1000) % 0x10 * 0x1000 + Tail(0x80 + c / 0x40 % 0x40) * 0x40 + Tail(0x80 + c % 0x40) == c
  {
    SixBits(c);
    SixBits(c / 0x40);
  }

  lemma Four(c: nat)
    requires 0x10000 <= c <= 0x10FFFF
    ensures 0xF0 <= 0xF0 + c / 0x40000 < 0xF8
    ensures (0xF0 + c / 0x40000) % 0x08 * 0x40000 + Tail(0x80 + c / 0x1000 % 0x40) * 0x1000
            + Tail(0x80 + c / 0x40 % 0x40) * 0x40 + Tail(0x80 + c % 0x40) == c
  {
    SixBits(c);
    SixBits(c / 0x40);
    SixBits(c / 0x1000);
    assert c / 0x1000 / 0x40 == c / 0x40000;
  }

  /** Six bits of x come back out of a continuation octet, and the rest is the next group. */
  lemma SixBits(x: nat)
    ensures x == x / 0x40 * 0x40 + x % 0x40
    ensures Tail(0x80 + x % 0x40) == x % 0x40
    ensures x / 0x40 / 0x40 == x / 0x1000
  {
  }

  lemma {:induction false} EncodeAppend(s: seq<CodePoint>, t: seq<CodePoint>)
    ensures Encode(s + t) == Encode(s) + Encode(t)
  {
    if s == [] {
      assert s + t == t;
    } else {
      EncodeAppend(s[1..], t);
      assert (s + t)[1..] == s[1..] + t;
      Associate(EncodeOne(s[0]), Encode(s[1..]), Encode(t));
    }
  }

  lemma Associate(a: Bytes, b: Bytes, c: Bytes)
    ensures a + (b + c) == a + b + c
  {
  }

  lemma Split(a: Bytes, b: Bytes, c: Bytes)
    requires a + b <= c
    ensures c == a + c[|a|..] && b <= c[|a|..]
  {
    assert a == (a + b)[..|a|] == c[..|a|];
    assert b == (a + b)[|a|..];
  }

  /** Two encodings that agree agree in their first characters, and in what follows. */
  lemma SameFirst(c: CodePoint, d: CodePoint, x: Bytes, y: Bytes)
    requires EncodeOne(c) + x == EncodeOne(d) + y
    ensures c == d && x == y
  {
    DecodeEncoded(c, x);
    DecodeEncoded(d, y);
    assert x == (EncodeOne(c) + x)[|EncodeOne(c)|..];
    assert y == (EncodeOne(c) + y)[|EncodeOne(c)|..];
  }

  lemma FirstAgrees(s: seq<CodePoint>, t: seq<CodePoint>)
    requires s != [] && Encode(s) <= Encode(t)
    ensures t != [] && s[0] == t[0] && Encode(s[1..]) <= Encode(t[1..])
  {
    Split(EncodeOne(s[0]), Encode(s[1..]), Encode(t));
    if t != [] {
      SameFirst(s[0], t[0], Encode(t)[|EncodeOne(s[0])|..], Encode(t[1..]));
    }
  }

  /** UTF-8 is a prefix code: encodings are prefixes of each other exactly when the strings are. */
  lemma {:induction false} PrefixCode(s: seq<CodePoint>, t: seq<CodePoint>)
    ensures Encode(s) <= Encode(t) <==> s <= t
  {
    if s != [] && Encode(s) <= Encode(t) {
      FirstAgrees(s, t);
      PrefixCode(s[1..], t[1..]);
      assert s == [s[0]] + s[1..] && t == [t[0]] + t[1..];
    }
    if s <= t {
      EncodeAppend(s, t[|s|..]);
      assert t == s + t[|s|..];
    }
  }

  /** The path part of build_environ. A latin-1 string is its octets; a surrogate cannot be encoded. */
  method SplitPath(rootPath: seq<CodePoint>, path: seq<CodePoint>) returns (r: Option<(Bytes, Bytes)>)
    ensures r.Some? <==> Encodable(rootPath) && Encodable(path)
    ensures r.Some? ==>
              var (script, info) := r.value;
              && script == Encode(rootPath)
              && (rootPath <= path ==> info == Encode(path[|rootPath|..]))
              && (!(rootPath <= path) ==> info == Encode(path))
              && (script + info == Encode(path) <==> rootPath <= path)
  {
    if !Encodable(rootPath) || !Encodable(path) {
      return None;
    }
    var scriptName := Encode(rootPath);
    var pathInfo := Encode(path);
    PrefixCode(rootPath, path);
    if scriptName <= pathInfo {
      pathInfo := pathInfo[|scriptName|..];
      assert path == rootPath + path[|rootPath|..];
      EncodeAppend(rootPath, path[|rootPath|..]);
    }
    r := Some((scriptName, pathInfo));
    assert scriptName + pathInfo == Encode(path) ==> scriptName <= Encode(path);
  }
}
