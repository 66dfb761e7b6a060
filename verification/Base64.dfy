/** Base64 as in section 4 of RFC 4648, on strings of bytes. */
module Base64 {
  import opened Common

  predicate IsBytes(s: string) {
    forall i | 0 <= i < |s| :: s[i] as int < 256
  }

  // ---- Characters: 0 to 63 are the digits, 64 is the padding ----

  function Digit(n: nat): char
    requires n <= 64
  {
    if n < 26 then ('A' as int + n) as char
    else if n < 52 then ('a' as int + (n - 26)) as char
    else if n < 62 then ('0' as int + (n - 52)) as char
    else if n == 62 then '+'
    else if n == 63 then '/'
    else '='
  }

  function Value(c: char): Option<nat> {
    if 'A' <= c <= 'Z' then Some(c as int - 'A' as int)
    else if 'a' <= c <= 'z' then Some(c as int - 'a' as int + 26)
    else if '0' <= c <= '9' then Some(c as int - '0' as int + 52)
    else if c == '+' then Some(62)
    else if c == '/' then Some(63)
    else if c == '=' then Some(64)
    else None
  }

  predicate Digits(ns: seq<nat>) {
    forall i | 0 <= i < |ns| :: ns[i] <= 64
  }

  function Chars(ns: seq<nat>): (s: string)
    requires Digits(ns)
    ensures |s| == |ns|
  {
    seq(|ns|, i requires 0 <= i < |ns| => Digit(ns[i]))
  }

  function Values(s: string): Option<seq<nat>> {
    if s == "" then Some([])
    else
      var n :- Value(s[0]);
      var rest :- Values(s[1..]);
      Some([n] + rest)
  }

  lemma {:induction false} ValuesChars(ns: seq<nat>)
    requires Digits(ns)
    ensures Values(Chars(ns)) == Some(ns)
  {
    if ns != [] {
      assert Chars(ns)[1..] == Chars(ns[1..]);
      ValuesChars(ns[1..]);
      assert ns == [ns[0]] + ns[1..];
    }
  }

  // ---- Three bytes in four digits ----

  // The four digits of three bytes.
  function D1(a: nat): nat { a / 4 }
  function D2(a: nat, b: nat): nat { a % 4 * 16 + b / 16 }
  function D3(b: nat, c: nat): nat { b % 16 * 4 + c / 64 }
  function D4(c: nat): nat { c % 64 }

  function Pack(s: string): seq<nat>
    requires IsBytes(s)
  {
    if |s| == 0 then []
    else
      var a := s[0] as int;
      if |s| == 1 then [D1(a), D2(a, 0), 64, 64]
      else
        var b := s[1] as int;
        if |s| == 2 then [D1(a), D2(a, b), D3(b, 0), 64]
        else
          var c := s[2] as int;
          [D1(a), D2(a, b), D3(b, c), D4(c)] + Pack(s[3..])
  }

  function Unpack(ns: seq<nat>): Option<string>
    requires Digits(ns)
  {
    if ns == [] then Some("")
    else if |ns| < 4 || ns[0] == 64 || ns[1] == 64 then None
    else
      var p, q, r, t := ns[0], ns[1], ns[2], ns[3];
      if r == 64 then (if |ns| == 4 && t == 64 && q % 16 == 0 then Some([First(p, q)]) else None)
      else if t == 64 then (if |ns| == 4 && r % 4 == 0 then Some([First(p, q), Second(q, r)]) else None)
      else
        var rest :- Unpack(ns[4..]);
        Some([First(p, q), Second(q, r), Third(r, t)] + rest)
  }

  function First(p: nat, q: nat): char
    requires p < 64 && q < 64
  {
    (p * 4 + q / 16) as char
  }

  function Second(q: nat, r: nat): char
    requires q < 64 && r < 64
  {
    (q % 16 * 16 + r / 4) as char
  }

  function Third(r: nat, t: nat): char
    requires r < 64 && t < 64
  {
    (r % 4 * 64 + t) as char
  }

  lemma Sextets(a: nat, b: nat, c: nat)
    requires a < 256 && b < 256 && c < 256
    ensures D1(a) < 64 && D2(a, b) < 64 && D3(b, c) < 64 && D4(c) < 64
    ensures First(D1(a), D2(a, b)) == a as char
    ensures Second(D2(a, b), D3(b, c)) == b as char
    ensures Third(D3(b, c), D4(c)) == c as char
    ensures D2(a, 0) % 16 == 0 && D3(b, 0) % 4 == 0
  {
    assert b / 16 < 16 && c / 64 < 4;
    assert D2(a, b) / 16 == a % 4 && D2(a, b) % 16 == b / 16;
    assert D3(b, c) / 4 == b % 16 && D3(b, c) % 4 == c / 64;
  }

  lemma UnpackOne(p: nat, q: nat)
    requires p < 64 && q < 64 && q % 16 == 0
    ensures Unpack([p, q, 64, 64]) == Some([First(p, q)])
  {
  }

  lemma UnpackTwo(p: nat, q: nat, r: nat)
    requires p < 64 && q < 64 && r < 64 && r % 4 == 0
    ensures Unpack([p, q, r, 64]) == Some([First(p, q), Second(q, r)])
  {
  }

  lemma UnpackThree(p: nat, q: nat, r: nat, t: nat, ns: seq<nat>)
    requires p < 64 && q < 64 && r < 64 && t < 64 && Digits(ns) && Unpack(ns).Some?
    ensures Digits([p, q, r, t] + ns)
    ensures Unpack([p, q, r, t] + ns) == Some([First(p, q), Second(q, r), Third(r, t)] + Unpack(ns).value)
  {
    assert ([p, q, r, t] + ns)[4..] == ns;
  }

  lemma {:induction false} UnpackPack(s: string)
    requires IsBytes(s)
    ensures Digits(Pack(s)) && Unpack(Pack(s)) == Some(s)
  {
    if |s| == 1 {
      PackedOne(s);
    } else if |s| == 2 {
      PackedTwo(s);
    } else if |s| > 2 {
      UnpackPack(s[3..]);
      PackedThree(s);
    }
  }

  lemma PackedOne(s: string)
    requires IsBytes(s) && |s| == 1
    ensures Digits(Pack(s)) && Unpack(Pack(s)) == Some(s)
  {
    Sextets(s[0] as int, 0, 0);
    UnpackOne(D1(s[0] as int), D2(s[0] as int, 0));
    assert s == [s[0]];
  }

  lemma PackedTwo(s: string)
    requires IsBytes(s) && |s| == 2
    ensures Digits(Pack(s)) && Unpack(Pack(s)) == Some(s)
  {
    var a, b := s[0] as int, s[1] as int;
    Sextets(a, b, 0);
    UnpackTwo(D1(a), D2(a, b), D3(b, 0));
    assert s == [s[0], s[1]];
  }

  lemma PackedThree(s: string)
    requires IsBytes(s) && |s| > 2 && Digits(Pack(s[3..])) && Unpack(Pack(s[3..])) == Some(s[3..])
    ensures Digits(Pack(s)) && Unpack(Pack(s)) == Some(s)
  {
    UnpackBytes(s[0], s[1], s[2], Pack(s[3..]));
    PackNext(s);
    assert s == [s[0], s[1], s[2]] + s[3..];
  }

  lemma PackNext(s: string)
    requires IsBytes(s) && |s| > 2
    ensures var a, b, c := s[0] as int, s[1] as int, s[2] as int;
      Pack(s) == [D1(a), D2(a, b), D3(b, c), D4(c)] + Pack(s[3..])
  {
  }

  lemma UnpackBytes(x: char, y: char, z: char, ns: seq<nat>)
    requires x as int < 256 && y as int < 256 && z as int < 256 && Digits(ns) && Unpack(ns).Some?
    ensures var a, b, c := x as int, y as int, z as int;
      var all := [D1(a), D2(a, b), D3(b, c), D4(c)] + ns;
      Digits(all) && Unpack(all) == Some([x, y, z] + Unpack(ns).value)
  {
    var a, b, c := x as int, y as int, z as int;
    Sextets(a, b, c);
    UnpackThree(D1(a), D2(a, b), D3(b, c), D4(c), ns);
  }

  // ---- Encoding and decoding ----

  function Encode(s: string): string
    requires IsBytes(s)
  {
    UnpackPack(s);
    Chars(Pack(s))
  }

  function Decode(s: string): Option<string> {
    var ns :- Values(s);
    ValuesAreDigits(s);
    Unpack(ns)
  }

  lemma {:induction false} ValuesAreDigits(s: string)
    ensures Values(s).Some? ==> Digits(Values(s).value)
  {
    if s != "" { ValuesAreDigits(s[1..]); }
  }

  lemma DecodeEncode(s: string)
    requires IsBytes(s)
    ensures Decode(Encode(s)) == Some(s)
  {
    UnpackPack(s);
    ValuesChars(Pack(s));
  }

  /** Characters of encoded text: no line ends, no blanks and no NUL. */
  predicate Solid(s: string) {
    forall i | 0 <= i < |s| :: s[i] != '\n' && s[i] != '\r' && s[i] != ' ' && s[i] != '\0'
  }

  /** Encoded text is solid, and empty only for the empty string. */
  lemma EncodeChars(s: string)
    requires IsBytes(s)
    ensures Solid(Encode(s))
    ensures s != "" ==> Encode(s) != ""
  {
    UnpackPack(s);
    forall n: nat | n <= 64 ensures Solid([Digit(n)]) {}
    forall i | 0 <= i < |Encode(s)| ensures Solid([Encode(s)[i]]) && Encode(s)[i] == [Encode(s)[i]][0] {
      assert Encode(s)[i] == Digit(Pack(s)[i]);
    }
  }

  /** Text with a space does not decode. */
  lemma {:induction false} SpaceInvalid(s: string)
    requires ' ' in s
    ensures Decode(s) == None && Values(s) == None
  {
    assert s == [s[0]] + s[1..];
    if s[0] != ' ' { SpaceInvalid(s[1..]); }
  }

  // ---- The alphabet and the examples of RFC 4648 ----

  /** Table 1 of section 4. */
  lemma Alphabet(n: nat)
    requires n < 64
    ensures Digit(0) == 'A' && Digit(25) == 'Z' && Digit(26) == 'a' && Digit(51) == 'z' && Digit(52) == '0' && Digit(61) == '9'
    ensures Digit(62) == '+' && Digit(63) == '/' && Digit(64) == '='
    ensures n !in {25, 51, 61, 62, 63} ==> Digit(n + 1) as int == Digit(n) as int + 1
    ensures Value(Digit(n)) == Some(n)
  {
  }

  /** Groups of three bytes are encoded one after the other, and only the last group is padded. */
  lemma EncodeNext(s: string)
    requires IsBytes(s) && |s| > 3
    ensures Encode(s) == Encode(s[..3]) + Encode(s[3..])
  {
    UnpackPack(s);
    UnpackPack(s[..3]);
    UnpackPack(s[3..]);
    PackSplit(s);
    CharsAppend(Pack(s[..3]), Pack(s[3..]));
  }

  lemma CharsAppend(a: seq<nat>, b: seq<nat>)
    requires Digits(a) && Digits(b)
    ensures Digits(a + b) && Chars(a + b) == Chars(a) + Chars(b)
  {
  }

  lemma PackSplit(s: string)
    requires IsBytes(s) && |s| > 3
    ensures IsBytes(s[..3]) && IsBytes(s[3..]) && Pack(s) == Pack(s[..3]) + Pack(s[3..])
  {
    PackNext(s);
    PackNext(s[..3]);
    assert s[..3][3..] == [] && Pack([]) == [];
  }

  /** Three of the test vectors of section 10. */
  lemma TestVectors()
    ensures Encode("f") == "Zg==" && Encode("fo") == "Zm8=" && Encode("foo") == "Zm9v"
  {
    assert IsBytes("f") && IsBytes("fo") && IsBytes("foo");
    PackNext("foo");
    assert "foo"[3..] == "" && Pack("") == [];
    assert Pack("f") == [25, 32, 64, 64];
    assert Pack("fo") == [25, 38, 60, 64];
    assert Pack("foo") == [25, 38, 61, 47];
  }
}
