/** Hexadecimal sizes: `std::from_chars(..., 16)` into a `size_t` and `std::to_chars(..., 16)`. */
module Hex {
  import opened Wrappers
  import opened Bytes
  import opened ServerConfig

  predicate IsHexDigit(b: byte) {
    48 <= b <= 57 || 65 <= b <= 70 || 97 <= b <= 102
  }

  function DigitValue(b: byte): (v: nat)
    requires IsHexDigit(b)
    ensures v < 16
  {
    if b <= 57 then b as int - 48 else if b <= 70 then b as int - 55 else b as int - 87
  }

  /** The digit `std::to_chars` prints: lower case. */
  function DigitOf(v: nat): (b: byte)
    requires v < 16
    ensures IsHexDigit(b) && DigitValue(b) == v
  {
    if v < 10 then (48 + v) as byte else (87 + v) as byte
  }

  /** The length of the longest prefix of hexadecimal digits. */
  function DigitRun(s: seq<byte>): (n: nat)
    ensures n <= |s|
    ensures forall j :: 0 <= j < n ==> IsHexDigit(s[j])
    ensures n < |s| ==> !IsHexDigit(s[n])
  {
    if s == [] || !IsHexDigit(s[0]) then 0 else 1 + DigitRun(s[1..])
  }

  function Value(s: seq<byte>): nat
    requires forall j :: 0 <= j < |s| ==> IsHexDigit(s[j])
  {
    if s == [] then 0 else Value(s[..|s| - 1]) * 16 + DigitValue(s[|s| - 1])
  }

  /** `from_chars`: reads the digits it finds and ignores the rest; no digit, or a value beyond `size_t`, is an error. */
  function FromChars(s: seq<byte>): Option<nat> {
    var n := DigitRun(s);
    if n == 0 || Value(s[..n]) >= SIZE_T then None else Some(Value(s[..n]))
  }

  function ToChars(v: nat): (s: seq<byte>)
    ensures s != []
    ensures forall j :: 0 <= j < |s| ==> IsHexDigit(s[j])
  {
    if v < 16 then [DigitOf(v)] else ToChars(v / 16) + [DigitOf(v % 16)]
  }

  lemma {:induction false} ValueOfToChars(v: nat)
    ensures Value(ToChars(v)) == v
  {
    var s := ToChars(v);
    if v < 16 {
      assert s[..|s| - 1] == [];
    } else {
      ValueOfToChars(v / 16);
      assert s[..|s| - 1] == ToChars(v / 16);
    }
  }

  lemma {:induction false} DigitRunStops(ds: seq<byte>, s: seq<byte>)
    requires forall j :: 0 <= j < |ds| ==> IsHexDigit(ds[j])
    requires s != [] ==> !IsHexDigit(s[0])
    ensures DigitRun(ds + s) == |ds|
  {
    if ds == [] {
      assert ds + s == s;
    } else {
      assert (ds + s)[1..] == ds[1..] + s;
      DigitRunStops(ds[1..], s);
    }
  }

  /** Printing a size and reading it back, whatever non-digit text (a chunk extension) follows the digits. */
  lemma RoundTrip(v: nat, ext: seq<byte>)
    requires v < SIZE_T
    requires ext != [] ==> !IsHexDigit(ext[0])
    ensures FromChars(ToChars(v) + ext) == Some(v)
  {
    var s := ToChars(v);
    DigitRunStops(s, ext);
    assert (s + ext)[..|s|] == s;
    ValueOfToChars(v);
  }
}
