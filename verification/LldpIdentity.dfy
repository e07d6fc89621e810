/** MAC-based LLDP identity, shared by the neighbour cache and the engine. */
module LldpIdentity {
  import opened Common

  predicate IsHexDigit(c: char) {
    '0' <= c <= '9' || 'a' <= c <= 'f' || 'A' <= c <= 'F'
  }

  predicate IsSeparatorIndex(i: int) {
    i == 2 || i == 5 || i == 8 || i == 11 || i == 14
  }

  predicate MacCharOk(s: string, i: nat)
    requires i < |s|
  {
    if IsSeparatorIndex(i) then s[i] == ':' else IsHexDigit(s[i])
  }

  /** Six hex-digit pairs separated by colons. */
  predicate MacLike(s: string) {
    |s| == 17 && forall i :: 0 <= i < |s| ==> MacCharOk(s, i)
  }

  function Lower(c: char): char {
    if 'A' <= c <= 'Z' then c + 32 as char else c
  }

  function Normalized(s: string): (r: string)
    ensures |r| == |s|
  {
    seq(|s|, i requires 0 <= i < |s| => Lower(s[i]))
  }

  /** The identity under which a neighbour is cached and matched: a MAC-like
      chassis id first, a MAC-like port id second, none (empty) otherwise. */
  function Resolve(chassisId: Option<string>, portId: Option<string>): (r: string)
    ensures r != "" ==> MacLike(r) && Normalized(r) == r
    ensures r != "" <==> (chassisId.Some? && MacLike(chassisId.value)) || (portId.Some? && MacLike(portId.value))
  {
    if chassisId.Some? && MacLike(chassisId.value) then
      NormalizedMacStable(chassisId.value);
      Normalized(chassisId.value)
    else if portId.Some? && MacLike(portId.value) then
      NormalizedMacStable(portId.value);
      Normalized(portId.value)
    else ""
  }

  lemma NormalizedMacStable(s: string)
    requires MacLike(s)
    ensures MacLike(Normalized(s)) && Normalized(Normalized(s)) == Normalized(s)
  {
    var r := Normalized(s);
    forall i | 0 <= i < |r| ensures MacCharOk(r, i) && Lower(r[i]) == r[i] {
      assert MacCharOk(s, i);
    }
  }

  /** A resolved identity resolves to itself, from either position, so cache
      and engine agree on the key however often it is re-resolved. */
  lemma ResolveIdempotent(chassisId: Option<string>, portId: Option<string>, other: Option<string>)
    requires Resolve(chassisId, portId) != ""
    ensures var key := Resolve(chassisId, portId);
            Resolve(Some(key), other) == key && (!(other.Some? && MacLike(other.value)) ==> Resolve(other, Some(key)) == key)
  {
  }

  method IsMacLike(s: string) returns (r: bool)
    ensures r == MacLike(s)
  {
    if |s| != 17 {
      return false;
    }
    for i := 0 to 17
      invariant forall j :: 0 <= j < i ==> MacCharOk(s, j)
    {
      if IsSeparatorIndex(i) {
        if s[i] != ':' {
          assert !MacCharOk(s, i);
          return false;
        }
      } else {
        if !IsHexDigit(s[i]) {
          assert !MacCharOk(s, i);
          return false;
        }
      }
    }
    return true;
  }

  method NormalizeMac(s: string) returns (out: string)
    ensures out == Normalized(s)
  {
    out := [];
    for i := 0 to |s|
      invariant out == Normalized(s)[..i]
    {
      out := out + [Lower(s[i])];
    }
  }

  // ---------------------------------------------------------------------
  // What the identity is
  // ---------------------------------------------------------------------

  const HEX_DIGITS: set<char> :=
    {'0', '1', '2', '3', '4', '5', '6', '7', '8', '9', 'a', 'b', 'c', 'd', 'e', 'f', 'A', 'B', 'C', 'D', 'E', 'F'}

  /** The `k`-th pair of digits, with the colon that follows all but the last. */
  predicate PairAt(s: string, k: nat)
    requires |s| == 17 && k < 6
  {
    s[3 * k] in HEX_DIGITS && s[3 * k + 1] in HEX_DIGITS && (k < 5 ==> s[3 * k + 2] == ':')
  }

  /** MAC-like strings are exactly six pairs of hexadecimal digits joined by colons. */
  lemma MacLikeMeaning(s: string)
    ensures MacLike(s) <==> |s| == 17 && forall k :: 0 <= k < 6 ==> PairAt(s, k)
  {
    if |s| == 17 {
      forall i | 0 <= i < 17 ensures MacCharOk(s, i) <==> (if i % 3 == 2 then s[i] == ':' else s[i] in HEX_DIGITS) {
        HexDigits(s[i]);
      }
      if MacLike(s) {
        forall k | 0 <= k < 6 ensures PairAt(s, k) {
          assert MacCharOk(s, 3 * k) && MacCharOk(s, 3 * k + 1) && (k < 5 ==> MacCharOk(s, 3 * k + 2));
        }
      }
      if forall k :: 0 <= k < 6 ==> PairAt(s, k) {
        forall i | 0 <= i < 17 ensures MacCharOk(s, i) {
          assert PairAt(s, i / 3);
        }
      }
    }
  }

  lemma HexDigits(c: char)
    ensures IsHexDigit(c) <==> c in HEX_DIGITS
  {
  }

  /** Same text up to the case of ASCII letters. */
  predicate SameButCase(s: string, t: string) {
    |s| == |t| && forall i :: 0 <= i < |s| ==>
                                s[i] == t[i] || ('A' <= s[i] <= 'Z' && t[i] == s[i] + 32 as char)
                                || ('A' <= t[i] <= 'Z' && s[i] == t[i] + 32 as char)
  }

  /** Normalizing yields the lower-case spelling of the same text, and texts
      that differ only in case have one normal form. */
  lemma NormalizedMeaning(s: string, t: string)
    ensures SameButCase(s, Normalized(s))
    ensures forall c :: c in Normalized(s) ==> !('A' <= c <= 'Z')
    ensures SameButCase(s, t) ==> Normalized(s) == Normalized(t)
  {
  }

  /** The chassis id decides if it is MAC-like, the port id only otherwise. */
  lemma ResolvePrefersChassis(chassis: string, portId: Option<string>, other: Option<string>)
    requires other.Some? ==> !MacLike(other.value)
    ensures MacLike(chassis) ==> SameButCase(chassis, Resolve(Some(chassis), portId))
    ensures portId.Some? && MacLike(portId.value) ==> SameButCase(portId.value, Resolve(other, portId))
  {
    NormalizedMeaning(chassis, chassis);
    if portId.Some? {
      NormalizedMeaning(portId.value, portId.value);
    }
  }
}
