/** Pairing (src/pairing.rs): unknown users receive a short code that the owner approves;
    approved users are remembered per channel, and each user's chat session ID is kept.
    Pending requests expire after an hour. Codes and session IDs come from a xorshift64
    generator whose seed, drawn from the clock in the source, is a parameter here, as is
    the current time (Unix seconds). */
module Pairing {
  import opened Wrappers
  import opened Strings

  /** How long a pairing code stays valid, in seconds. */
  const CODE_TTL_SECS: nat := 3600
  /** The code characters: no 0/O or 1/I. */
  const CODE_ALPHABET: string := "ABCDEFGHJKLMNPQRSTUVWXYZ23456789"
  const CODE_LENGTH: nat := 8
  const MAX_CODE_ATTEMPTS: nat := 100
  const UNIQUE_CODE_FAILURE := "Failed to generate unique code after 100 attempts"

  datatype PendingRequest = PendingRequest(
    code: string,
    channel: string,
    userId: string,
    username: Option<string>,
    displayName: Option<string>,
    createdAt: nat)

  /** `u64::saturating_sub`. */
  function SaturatingSub(a: nat, b: nat): (r: nat)
    ensures a >= b ==> r == a - b
    ensures a < b ==> r == 0
  {
    if a >= b then a - b else 0
  }

  /** A request younger than the time-to-live (a clock behind the request counts as age 0). */
  predicate IsLive(req: PendingRequest, now: nat) {
    SaturatingSub(now, req.createdAt) < CODE_TTL_SECS
  }

  /** `retain` with `IsLive`: the live requests, in their order. */
  function LiveRequests(reqs: seq<PendingRequest>, now: nat): (r: seq<PendingRequest>)
    ensures |r| <= |reqs|
    ensures forall x :: x in r <==> x in reqs && IsLive(x, now)
    decreases |reqs|
  {
    if reqs == [] then []
    else if IsLive(reqs[0], now) then [reqs[0]] + LiveRequests(reqs[1..], now)
    else LiveRequests(reqs[1..], now)
  }

  /** Pruning keeps the order of the requests: pruning a concatenation prunes each part
      and concatenates the results. */
  lemma {:induction false} LiveRequestsAppend(a: seq<PendingRequest>, b: seq<PendingRequest>, now: nat)
    ensures LiveRequests(a + b, now) == LiveRequests(a, now) + LiveRequests(b, now)
    decreases |a|
  {
    if a == [] {
      assert a + b == b;
    } else {
      assert (a + b)[0] == a[0];
      assert (a + b)[1..] == a[1..] + b;
      LiveRequestsAppend(a[1..], b, now);
    }
  }

  /** A single request survives pruning exactly when it is live. */
  lemma LiveRequestsSingle(req: PendingRequest, now: nat)
    ensures LiveRequests([req], now) == if IsLive(req, now) then [req] else []
  {
  }

  /** Pruning twice at the same time is pruning once. */
  lemma {:induction false} PruneIdempotent(reqs: seq<PendingRequest>, now: nat)
    ensures LiveRequests(LiveRequests(reqs, now), now) == LiveRequests(reqs, now)
    decreases |reqs|
  {
    if reqs != [] {
      PruneIdempotent(reqs[1..], now);
      if IsLive(reqs[0], now) {
        assert ([reqs[0]] + LiveRequests(reqs[1..], now))[1..] == LiveRequests(reqs[1..], now);
      }
    }
  }

  /** The requests' codes are pairwise different. */
  predicate DistinctCodes(reqs: seq<PendingRequest>) {
    forall i, j :: 0 <= i < j < |reqs| ==> reqs[i].code != reqs[j].code
  }

  /** No two requests are for the same user of the same channel. */
  predicate OnePerUser(reqs: seq<PendingRequest>) {
    forall i, j :: 0 <= i < j < |reqs| ==> !(reqs[i].channel == reqs[j].channel && reqs[i].userId == reqs[j].userId)
  }

  /** Pruning keeps codes distinct and users unique. */
  lemma {:induction false} PrunePreservesDistinct(reqs: seq<PendingRequest>, now: nat)
    requires DistinctCodes(reqs) && OnePerUser(reqs)
    ensures DistinctCodes(LiveRequests(reqs, now)) && OnePerUser(LiveRequests(reqs, now))
    decreases |reqs|
  {
    if reqs != [] {
      var tail := reqs[1..];
      assert DistinctCodes(tail) && OnePerUser(tail) by {
        forall i, j | 0 <= i < j < |tail| ensures tail[i].code != tail[j].code {
          assert tail[i] == reqs[i + 1] && tail[j] == reqs[j + 1];
        }
        forall i, j | 0 <= i < j < |tail|
          ensures !(tail[i].channel == tail[j].channel && tail[i].userId == tail[j].userId)
        {
          assert tail[i] == reqs[i + 1] && tail[j] == reqs[j + 1];
        }
      }
      PrunePreservesDistinct(tail, now);
      var rest := LiveRequests(tail, now);
      if IsLive(reqs[0], now) {
        var r := [reqs[0]] + rest;
        forall j | 0 <= j < |rest|
          ensures reqs[0].code != rest[j].code
          ensures !(reqs[0].channel == rest[j].channel && reqs[0].userId == rest[j].userId)
        {
          assert rest[j] in tail;
          var k :| 0 <= k < |tail| && tail[k] == rest[j];
          assert reqs[k + 1] == rest[j];
        }
        forall i, j | 0 <= i < j < |r| ensures r[i].code != r[j].code {
          if i > 0 {
            assert r[i] == rest[i - 1] && r[j] == rest[j - 1];
          } else {
            assert r[j] == rest[j - 1];
          }
        }
        forall i, j | 0 <= i < j < |r| ensures !(r[i].channel == r[j].channel && r[i].userId == r[j].userId) {
          if i > 0 {
            assert r[i] == rest[i - 1] && r[j] == rest[j - 1];
          } else {
            assert r[j] == rest[j - 1];
          }
        }
      }
    }
  }

  /** The codes of a list of requests. */
  function Codes(reqs: seq<PendingRequest>): (r: set<string>)
    ensures forall i :: 0 <= i < |reqs| ==> reqs[i].code in r
    ensures forall c :: c in r ==> exists i :: 0 <= i < |reqs| && reqs[i].code == c
  {
    set i | 0 <= i < |reqs| :: reqs[i].code
  }

  /** Index of the first request for a (channel, user) pair. */
  function FindRequestFor(reqs: seq<PendingRequest>, channel: string, userId: string): (r: Option<nat>)
    ensures r.Some? ==> r.value < |reqs| && reqs[r.value].channel == channel && reqs[r.value].userId == userId
    ensures r.Some? ==> forall i :: 0 <= i < r.value ==> !(reqs[i].channel == channel && reqs[i].userId == userId)
    ensures r.None? ==> forall i :: 0 <= i < |reqs| ==> !(reqs[i].channel == channel && reqs[i].userId == userId)
    decreases |reqs|
  {
    if reqs == [] then None
    else if reqs[0].channel == channel && reqs[0].userId == userId then Some(0)
    else match FindRequestFor(reqs[1..], channel, userId)
      case None => None
      case Some(i) => Some(i + 1)
  }

  /** Index of the first request with this code. */
  function FindCode(reqs: seq<PendingRequest>, code: string): (r: Option<nat>)
    ensures r.Some? ==> r.value < |reqs| && reqs[r.value].code == code
    ensures r.Some? ==> forall i :: 0 <= i < r.value ==> reqs[i].code != code
    ensures r.None? ==> code !in Codes(reqs)
    decreases |reqs|
  {
    if reqs == [] then None
    else if reqs[0].code == code then Some(0)
    else match FindCode(reqs[1..], code)
      case None =>
        assert forall i :: 1 <= i < |reqs| ==> reqs[i] == reqs[1..][i - 1];
        None
      case Some(i) => Some(i + 1)
  }

  /** xorshift64 (`SimpleRng::next`): three shift-xor steps on 64 bits. */
  function XorShift(x: bv64): bv64 {
    var a := x ^ (x << 13);
    var b := a ^ (a >> 7);
    b ^ (b << 17)
  }

  /** Zero is the generator's only dead state: a zero state stays zero and no other state
      ever reaches zero, since each shift-xor step can be undone. */
  lemma XorShiftZero(x: bv64)
    ensures x == 0 <==> XorShift(x) == 0
  {
  }

  class SimpleRng {
    var state: bv64

    constructor (seed: bv64)
      ensures state == seed
    {
      state := seed;
    }

    /** `next`: advances the state and returns it. */
    method Next() returns (x: bv64)
      modifies this
      ensures state == XorShift(old(state)) && x == state
    {
      state := XorShift(state);
      x := state;
    }
  }

  /** The characters of `CODE_ALPHABET`: capital letters other than I and O, and the
      digits 2 to 9. */
  predicate IsCodeChar(c: char) {
    ('A' <= c <= 'Z' && c != 'I' && c != 'O') || ('2' <= c <= '9')
  }

  lemma AlphabetIsCodeChars()
    ensures |CODE_ALPHABET| == 32
    ensures forall k :: 0 <= k < 32 ==> IsCodeChar(CODE_ALPHABET[k])
  {
  }

  /** `CODE_ALPHABET[x as usize % 32]`. */
  function AlphabetChar(x: bv64): (c: char)
    ensures IsCodeChar(c)
  {
    AlphabetIsCodeChars();
    CODE_ALPHABET[(x % 32) as int]
  }

  /** The characters drawn from `n` successive generator outputs after `state`. */
  function CodeChars(state: bv64, n: nat): (s: string)
    ensures |s| == n && forall i :: 0 <= i < n ==> IsCodeChar(s[i])
    decreases n
  {
    if n == 0 then [] else [AlphabetChar(XorShift(state))] + CodeChars(XorShift(state), n - 1)
  }

  /** The code a generator seeded with `seed` produces. */
  function CodeFrom(seed: bv64): (s: string)
    ensures |s| == CODE_LENGTH
  {
    CodeChars(seed, CODE_LENGTH)
  }

  /** Every code is eight characters of the alphabet. */
  lemma CodeFromAlphabet(seed: bv64)
    ensures |CodeFrom(seed)| == CODE_LENGTH && forall i :: 0 <= i < CODE_LENGTH ==> IsCodeChar(CodeFrom(seed)[i])
  {
  }

  /** A generator seeded with zero only ever draws the first letter. */
  lemma {:induction false} ZeroSeedCode(n: nat)
    ensures forall i :: 0 <= i < n ==> CodeChars(0, n)[i] == 'A'
    decreases n
  {
    if n > 0 {
      XorShiftZero(0);
      ZeroSeedCode(n - 1);
    }
  }

  /** Helper: drawing one character moves it from the undrawn part to the code. */
  lemma DrawOneChar(code: string, state: bv64, n: nat)
    requires n > 0
    ensures code + CodeChars(state, n) == (code + [AlphabetChar(XorShift(state))]) + CodeChars(XorShift(state), n - 1)
  {
  }

  /** `generate_code`: eight alphabet characters from a freshly seeded generator. */
  method GenerateCode(seed: bv64) returns (code: string)
    ensures code == CodeFrom(seed)
  {
    var rng := new SimpleRng(seed);
    code := "";
    var i := 0;
    while i < CODE_LENGTH
      invariant 0 <= i <= CODE_LENGTH && |code| == i
      invariant code + CodeChars(rng.state, CODE_LENGTH - i) == CodeChars(seed, CODE_LENGTH)
    {
      ghost var before := rng.state;
      var x := rng.Next();
      var c := AlphabetChar(x);
      DrawOneChar(code, before, CODE_LENGTH - i);
      code := code + [c];
      i := i + 1;
    }
  }

  /** The first of the attempts' codes, from attempt `k` on, not already taken. */
  function FirstFreeCode(taken: set<string>, seeds: seq<bv64>, k: nat): (r: Result<string>)
    requires k <= |seeds|
    ensures r.Ok? ==> r.value !in taken
    ensures r.Ok? ==> exists i :: k <= i < |seeds| && r.value == CodeFrom(seeds[i])
    ensures r.Err? ==> r.msg == UNIQUE_CODE_FAILURE && forall i :: k <= i < |seeds| ==> CodeFrom(seeds[i]) in taken
    decreases |seeds| - k
  {
    if k == |seeds| then Err(UNIQUE_CODE_FAILURE)
    else if CodeFrom(seeds[k]) !in taken then Ok(CodeFrom(seeds[k]))
    else FirstFreeCode(taken, seeds, k + 1)
  }

  /** `generate_unique_code`: up to 100 attempts, each from its own seed, for a code no
      pending request holds. */
  method GenerateUniqueCode(existing: seq<PendingRequest>, seeds: seq<bv64>) returns (r: Result<string>)
    requires |seeds| == MAX_CODE_ATTEMPTS
    ensures r == FirstFreeCode(Codes(existing), seeds, 0)
  {
    var taken := Codes(existing);
    var attempt := 0;
    while attempt < MAX_CODE_ATTEMPTS
      invariant 0 <= attempt <= MAX_CODE_ATTEMPTS
      invariant FirstFreeCode(taken, seeds, attempt) == FirstFreeCode(taken, seeds, 0)
    {
      var code := GenerateCode(seeds[attempt]);
      if code !in taken {
        return Ok(code);
      }
      attempt := attempt + 1;
    }
    return Err(UNIQUE_CODE_FAILURE);
  }

  predicate IsHexDigit(c: char) {
    '0' <= c <= '9' || 'a' <= c <= 'f'
  }

  /** Lower-case hexadecimal digit. */
  function HexDigit(v: bv8): (c: char)
    requires v < 16
    ensures IsHexDigit(c)
    ensures v < 10 ==> c as int == '0' as int + v as int
    ensures v >= 10 ==> c as int == 'a' as int + v as int - 10
  {
    if v < 10 then ('0' as int + v as int) as char else ('a' as int + v as int - 10) as char
  }

  /** `{:02x}`: two digits, zero padded. */
  function Hex2(v: bv8): (s: string)
    ensures |s| == 2 && IsHexDigit(s[0]) && IsHexDigit(s[1])
  {
    [HexDigit(v >> 4), HexDigit(v & 0x0f)]
  }

  /** `{:01x}`: as few digits as the value needs, at least one. */
  function HexMin(v: bv8): (s: string)
    ensures v < 16 ==> |s| == 1 && s[0] == HexDigit(v)
    ensures v >= 16 ==> s == Hex2(v)
  {
    if v < 16 then [HexDigit(v)] else Hex2(v)
  }

  /** The variant byte `(b & 0x3f) | 0x80` always prints as two digits, the first of
      them 8, 9, a or b. */
  lemma VariantDigits(b: bv8)
    ensures HexMin((b & 0x3f) | 0x80) == Hex2((b & 0x3f) | 0x80)
    ensures Hex2((b & 0x3f) | 0x80)[0] in {'8', '9', 'a', 'b'}
  {
    var v := (b & 0x3f) | 0x80;
    assert 0x80 <= v <= 0xbf;
    assert 8 <= v >> 4 <= 11;
  }

  predicate IsHexText(s: string) {
    forall i :: 0 <= i < |s| ==> IsHexDigit(s[i])
  }

  /** Helper: hexadecimal texts concatenate to one. */
  lemma HexConcat(a: string, b: string)
    requires IsHexText(a) && IsHexText(b)
    ensures IsHexText(a + b)
  {
    forall i | 0 <= i < |a + b| ensures IsHexDigit((a + b)[i]) {
      if i >= |a| {
        assert (a + b)[i] == b[i - |a|];
      }
    }
  }

  /** The texts `f` gives for the elements, concatenated in order. */
  function ConcatMap<T(!new)>(f: T -> string, b: seq<T>): (s: string)
    ensures (forall x :: |f(x)| == 2) ==> |s| == 2 * |b|
    decreases |b|
  {
    if b == [] then [] else f(b[0]) + ConcatMap(f, b[1..])
  }

  /** Helper: with two characters per element, element `i` sits at `2i` and `2i + 1`. */
  lemma {:induction false} ConcatMapPair<T(!new)>(f: T -> string, b: seq<T>, i: nat)
    requires forall x :: |f(x)| == 2
    requires i < |b|
    ensures ConcatMap(f, b)[2 * i..2 * i + 2] == f(b[i])
    decreases i
  {
    var h := ConcatMap(f, b);
    var tail := ConcatMap(f, b[1..]);
    assert h == f(b[0]) + tail;
    if i > 0 {
      ConcatMapPair(f, b[1..], i - 1);
      assert b[1..][i - 1] == b[i];
      assert h[2 * i..2 * i + 2] == tail[2 * i - 2..2 * i];
    }
  }

  /** Each byte as two hexadecimal digits, in order. */
  function HexBytes(b: seq<bv8>): (s: string)
    ensures |s| == 2 * |b| && IsHexText(s)
  {
    HexBytesDigits(b);
    ConcatMap(Hex2, b)
  }

  /** Helper: the digits of the bytes are all hexadecimal. */
  lemma {:induction false} HexBytesDigits(b: seq<bv8>)
    ensures |ConcatMap(Hex2, b)| == 2 * |b| && IsHexText(ConcatMap(Hex2, b))
    decreases |b|
  {
    if b != [] {
      HexBytesDigits(b[1..]);
      HexConcat(Hex2(b[0]), ConcatMap(Hex2, b[1..]));
    }
  }

  /** Helper: byte `i` sits at digits `2i` and `2i + 1`. */
  lemma HexBytesPair(b: seq<bv8>, i: nat)
    requires i < |b|
    ensures HexBytes(b)[2 * i..2 * i + 2] == Hex2(b[i])
  {
    assert forall x :: |Hex2(x)| == 2;
    ConcatMapPair(Hex2, b, i);
  }

  /** The bytes after `generate_uuid`'s masking: byte 6 keeps its low four bits (under the
      version digit) and byte 8 gets the variant bits 10. */
  function Masked(b: seq<bv8>): (m: seq<bv8>)
    requires |b| == 16
    ensures |m| == 16 && m[6] == b[6] & 0x0f && m[8] == (b[8] & 0x3f) | 0x80
    ensures forall i :: 0 <= i < 16 && i != 6 && i != 8 ==> m[i] == b[i]
  {
    b[6 := b[6] & 0x0f][8 := (b[8] & 0x3f) | 0x80]
  }

  /** The text `generate_uuid` formats from sixteen bytes: the masked bytes' digits in
      groups of 8, 4, 4, 4 and 12, with the version digit 4 in place of the (zero) high
      digit of byte 6. */
  function UuidText(b: seq<bv8>): string
    requires |b| == 16
  {
    var h := HexBytes(Masked(b));
    h[..8] + "-" + h[8..12] + "-4" + h[13..16] + "-" + h[16..20] + "-" + h[20..]
  }

  /** Helper: a slice is the concatenation of its two halves. */
  lemma SliceSplit(h: string, i: nat, j: nat, k: nat)
    requires i <= j <= k <= |h|
    ensures h[i..k] == h[i..j] + h[j..k]
  {
  }

  /** Helper: the digits of bytes `i` and `i + 1`. */
  lemma HexBytesTwo(m: seq<bv8>, i: nat)
    requires i + 2 <= |m|
    ensures HexBytes(m)[2 * i..2 * i + 4] == Hex2(m[i]) + Hex2(m[i + 1])
  {
    HexBytesPair(m, i);
    HexBytesPair(m, i + 1);
    SliceSplit(HexBytes(m), 2 * i, 2 * i + 2, 2 * i + 4);
  }

  /** Helper: a value below 16 has a zero high digit, and `{:01x}` prints the low one. */
  lemma SmallHex(v: bv8)
    requires v < 16
    ensures Hex2(v)[1..] == HexMin(v)
  {
    assert v >> 4 == 0 && v & 0x0f == v;
  }

  /** Helper: digits 0 to 12 of the masked bytes, the first two groups. */
  lemma LeadingGroups(b: seq<bv8>)
    requires |b| == 16
    ensures HexBytes(Masked(b))[..8] == Hex2(b[0]) + Hex2(b[1]) + (Hex2(b[2]) + Hex2(b[3]))
    ensures HexBytes(Masked(b))[8..12] == Hex2(b[4]) + Hex2(b[5])
  {
    var m := Masked(b);
    var h := HexBytes(m);
    HexBytesTwo(m, 0); HexBytesTwo(m, 2); SliceSplit(h, 0, 4, 8);
    HexBytesTwo(m, 4);
    assert h[..8] == h[0..8];
  }

  /** Helper: digits 13 to 16, the third group after the version digit. */
  lemma VersionGroup(b: seq<bv8>)
    requires |b| == 16
    ensures HexBytes(Masked(b))[13..16] == HexMin(b[6] & 0x0f) + Hex2(b[7])
  {
    var m := Masked(b);
    var h := HexBytes(m);
    HexBytesPair(m, 6); HexBytesPair(m, 7); SmallHex(m[6]);
    assert h[13..14] == h[12..14][1..];
    SliceSplit(h, 13, 14, 16);
  }

  /** Helper: digits 16 to 20, the variant group. */
  lemma VariantGroup(b: seq<bv8>)
    requires |b| == 16
    ensures HexBytes(Masked(b))[16..20] == HexMin((b[8] & 0x3f) | 0x80) + Hex2(b[9])
  {
    HexBytesTwo(Masked(b), 8);
    VariantDigits(b[8]);
  }

  /** Helper: digits 20 to 32, the last group. */
  lemma TrailingGroup(b: seq<bv8>)
    requires |b| == 16
    ensures HexBytes(Masked(b))[20..] == Hex2(b[10]) + Hex2(b[11]) + (Hex2(b[12]) + Hex2(b[13])) + (Hex2(b[14]) + Hex2(b[15]))
  {
    var m := Masked(b);
    var h := HexBytes(m);
    HexBytesTwo(m, 10); HexBytesTwo(m, 12); HexBytesTwo(m, 14);
    SliceSplit(h, 20, 24, 28); SliceSplit(h, 20, 28, 32);
    assert h[20..] == h[20..32];
  }

  /** `UuidText` is the source's format string: `{:02x}` for the plain bytes, `4{:01x}`
      for byte 6 and `{:01x}` for the variant byte, which always takes two digits. */
  lemma UuidTextIsFormat(b: seq<bv8>)
    requires |b| == 16
    ensures UuidText(b) ==
      (Hex2(b[0]) + Hex2(b[1]) + (Hex2(b[2]) + Hex2(b[3]))) + "-" + (Hex2(b[4]) + Hex2(b[5])) + "-4"
      + (HexMin(b[6] & 0x0f) + Hex2(b[7])) + "-" + (HexMin((b[8] & 0x3f) | 0x80) + Hex2(b[9])) + "-"
      + (Hex2(b[10]) + Hex2(b[11]) + (Hex2(b[12]) + Hex2(b[13])) + (Hex2(b[14]) + Hex2(b[15])))
  {
    LeadingGroups(b);
    VersionGroup(b);
    VariantGroup(b);
    TrailingGroup(b);
  }

  lemma HexSlice(s: string, i: nat, j: nat)
    requires IsHexText(s) && i <= j <= |s|
    ensures IsHexText(s[i..j])
  {
  }

  /** Whatever the bytes, the text has the RFC 4122 layout of a version 4 UUID: 36
      characters, hyphens at 8, 13, 18 and 23, version digit 4 at 14, a variant digit
      8, 9, a or b at 19, and lower-case hexadecimal digits elsewhere. */
  lemma UuidTextLayout(b: seq<bv8>)
    requires |b| == 16
    ensures var s := UuidText(b);
            |s| == 36
            && s[8] == '-' && s[13] == '-' && s[18] == '-' && s[23] == '-'
            && s[14] == '4' && s[19] in {'8', '9', 'a', 'b'}
            && IsHexText(s[..8]) && IsHexText(s[9..13]) && IsHexText(s[15..18])
            && IsHexText(s[19..23]) && IsHexText(s[24..])
  {
    var m := Masked(b);
    var h := HexBytes(m);
    HexBytesPair(m, 8);
    VariantDigits(b[8]);
    assert h[16] == Hex2(m[8])[0];
    HexSlice(h, 0, 8); HexSlice(h, 8, 12); HexSlice(h, 13, 16); HexSlice(h, 16, 20); HexSlice(h, 20, 32);
    var s := UuidText(b);
    assert s == h[..8] + "-" + h[8..12] + "-4" + h[13..16] + "-" + h[16..20] + "-" + h[20..];
    assert s[..8] == h[..8] && s[9..13] == h[8..12] && s[15..18] == h[13..16];
    assert s[19..23] == h[16..20] && s[24..] == h[20..] && s[19] == h[16];
  }

  /** The low bytes of `n` successive generator outputs after `state`. */
  function OutputBytes(state: bv64, n: nat): (r: seq<bv8>)
    ensures |r| == n
    decreases n
  {
    if n == 0 then [] else [LowByte(XorShift(state))] + OutputBytes(XorShift(state), n - 1)
  }

  /** `as u8`: the low eight bits. */
  function LowByte(x: bv64): bv8 {
    (x & 0xff) as bv8
  }

  /** Helper: drawing one byte moves it from the undrawn part to the bytes. */
  lemma DrawOneByte(bytes: seq<bv8>, state: bv64, x: bv64, n: nat)
    requires n > 0 && x == XorShift(state)
    ensures bytes + OutputBytes(state, n) == (bytes + [LowByte(x)]) + OutputBytes(x, n - 1)
  {
  }

  /** A session ID is made of this many random bytes. */
  const UUID_BYTES: nat := 16

  /** The session ID a generator seeded with `seed` produces. */
  function UuidFrom(seed: bv64): string {
    UuidText(OutputBytes(seed, UUID_BYTES))
  }

  /** `generate_uuid`: sixteen bytes from a freshly seeded generator, formatted. */
  method GenerateUuid(seed: bv64) returns (uuid: string)
    ensures uuid == UuidFrom(seed)
  {
    var rng := new SimpleRng(seed);
    var bytes := FillBytes(rng, UUID_BYTES);
    uuid := UuidText(bytes);
  }

  /** The loop that fills the byte buffer: the low byte of each of `n` draws, in order. */
  method FillBytes(rng: SimpleRng, n: nat) returns (bytes: seq<bv8>)
    modifies rng
    ensures bytes == OutputBytes(old(rng.state), n)
  {
    bytes := [];
    var i := 0;
    while i < n
      invariant 0 <= i <= n && |bytes| == i
      invariant bytes + OutputBytes(rng.state, n - i) == OutputBytes(old(rng.state), n)
    {
      ghost var before := rng.state;
      var x := rng.Next();
      DrawOneByte(bytes, before, x, n - i);
      bytes := bytes + [LowByte(x)];
      i := i + 1;
    }
    assert OutputBytes(rng.state, 0) == [] && bytes + [] == bytes;
  }

  /** Users approved on a channel after one more approval. */
  function WithApproved(approved: map<string, seq<string>>, channel: string, userId: string): (r: map<string, seq<string>>)
    ensures channel in r && userId in r[channel]
    ensures forall c :: c in approved && c != channel ==> c in r && r[c] == approved[c]
    ensures forall c :: c in r ==> c in approved || c == channel
  {
    approved[channel := (if channel in approved then approved[channel] else []) + [userId]]
  }

  /** The key of a user's session: channel and user joined by a colon. */
  function SessionKey(channel: string, userId: string): string
  {
    channel + ":" + userId
  }

  class PairingStore {
    var pending: seq<PendingRequest>
    var approved: map<string, seq<string>>
    var sessions: map<string, string>

    /** Pending codes are distinct and each user has at most one pending request. */
    predicate Valid()
      reads this
    {
      DistinctCodes(pending) && OnePerUser(pending)
    }

    /** `PairingStore::default()`. */
    constructor ()
      ensures pending == [] && approved == map[] && sessions == map[] && Valid()
    {
      pending := [];
      approved := map[];
      sessions := map[];
    }

    /** `prune_expired`: drops the requests that are an hour old or older. */
    method PruneExpired(now: nat)
      modifies this
      ensures pending == LiveRequests(old(pending), now)
      ensures approved == old(approved) && sessions == old(sessions)
      ensures old(Valid()) ==> Valid()
    {
      if Valid() {
        PrunePreservesDistinct(pending, now);
      }
      pending := LiveRequests(pending, now);
    }

    /** `is_approved`: the user is on the channel's approved list. */
    predicate IsApproved(channel: string, userId: string)
      reads this
    {
      channel in approved && userId in approved[channel]
    }

    /** `get_or_create_pending`: after pruning, the user's pending code if there is one
        (not new), else a new request under a code no other pending request holds. */
    method GetOrCreatePending(channel: string, userId: string, username: Option<string>,
                              displayName: Option<string>, now: nat, seeds: seq<bv64>,
                              saveError: Option<string>)
      returns (r: Result<(string, bool)>)
      requires |seeds| == MAX_CODE_ATTEMPTS
      modifies this
      ensures approved == old(approved) && sessions == old(sessions)
      ensures old(Valid()) ==> Valid()
      ensures var live := LiveRequests(old(pending), now);
              FindRequestFor(live, channel, userId).Some? ==>
                pending == live && r == Ok((live[FindRequestFor(live, channel, userId).value].code, false))
      ensures var live := LiveRequests(old(pending), now);
              var free := FirstFreeCode(Codes(live), seeds, 0);
              FindRequestFor(live, channel, userId).None? ==>
                if free.Err? then pending == live && r == Err(free.msg)
                else pending == live + [PendingRequest(free.value, channel, userId, username, displayName, now)]
                     && free.value !in Codes(live)
                     && r == (if saveError.Some? then Err(saveError.value) else Ok((free.value, true)))
    {
      PruneExpired(now);
      var existing := FindRequestFor(pending, channel, userId);
      if existing.Some? {
        return Ok((pending[existing.value].code, false));
      }
      var code := GenerateUniqueCode(pending, seeds);
      if code.Err? {
        return Err(code.msg);
      }
      var request := PendingRequest(code.value, channel, userId, username, displayName, now);
      if Valid() {
        AppendKeepsValid(pending, request);
      }
      pending := pending + [request];
      if saveError.Some? {
        return Err(saveError.value);
      }
      return Ok((code.value, true));
    }

    /** `approve`: after pruning, the request whose code equals the upper-cased input is
        removed and its user approved on its channel. */
    method Approve(code: string, now: nat, saveError: Option<string>) returns (r: Result<PendingRequest>)
      modifies this
      ensures sessions == old(sessions)
      ensures old(Valid()) ==> Valid()
      ensures var live := LiveRequests(old(pending), now);
              FindCode(live, ToUpper(code)).None? ==>
                r == Err("No pending request found for code: " + code) && pending == live && approved == old(approved)
      ensures var live := LiveRequests(old(pending), now);
              var idx := FindCode(live, ToUpper(code));
              idx.Some? ==>
                var req := live[idx.value];
                pending == live[..idx.value] + live[idx.value + 1..]
                && approved == WithApproved(old(approved), req.channel, req.userId)
                && IsApproved(req.channel, req.userId)
                && r == (if saveError.Some? then Err(saveError.value) else Ok(req))
    {
      PruneExpired(now);
      var upper := ToUpper(code);
      var idx := FindCode(pending, upper);
      if idx.None? {
        return Err("No pending request found for code: " + code);
      }
      var request := pending[idx.value];
      ApproveAt(idx.value);
      if saveError.Some? {
        return Err(saveError.value);
      }
      return Ok(request);
    }

    /** Helper: the request at `k` leaves the pending list and its user is approved. */
    method ApproveAt(k: nat)
      requires k < |pending|
      modifies this
      ensures pending == old(pending[..k] + pending[k + 1..])
      ensures approved == WithApproved(old(approved), old(pending[k].channel), old(pending[k].userId))
      ensures sessions == old(sessions)
      ensures old(Valid()) ==> Valid()
    {
      if Valid() {
        RemoveKeepsValid(pending, k);
      }
      var request := pending[k];
      pending := pending[..k] + pending[k + 1..];
      approved := WithApproved(approved, request.channel, request.userId);
    }

    /** `auto_approve`: approves the user without any code. */
    method AutoApprove(channel: string, userId: string, saveError: Option<string>) returns (r: Result<()>)
      modifies this
      ensures approved == WithApproved(old(approved), channel, userId) && IsApproved(channel, userId)
      ensures pending == old(pending) && sessions == old(sessions)
      ensures r == if saveError.Some? then Err(saveError.value) else Ok(())
    {
      approved := WithApproved(approved, channel, userId);
      if saveError.Some? {
        return Err(saveError.value);
      }
      return Ok(());
    }

    /** `list_pending`: prunes, then the remaining requests. */
    method ListPending(now: nat) returns (r: seq<PendingRequest>)
      modifies this
      ensures pending == LiveRequests(old(pending), now) && r == pending
      ensures forall x :: x in r ==> IsLive(x, now)
      ensures approved == old(approved) && sessions == old(sessions)
    {
      PruneExpired(now);
      r := pending;
    }

    /** `get_or_create_session`: an existing session ID is returned unchanged; otherwise a
        new UUID is stored under the user's key. */
    method GetOrCreateSession(channel: string, userId: string, seed: bv64, saveError: Option<string>)
      returns (r: Result<string>)
      modifies this
      ensures pending == old(pending) && approved == old(approved)
      ensures SessionKey(channel, userId) in old(sessions) ==>
                sessions == old(sessions) && r == Ok(old(sessions)[SessionKey(channel, userId)])
      ensures SessionKey(channel, userId) !in old(sessions) ==>
                sessions == old(sessions)[SessionKey(channel, userId) := UuidFrom(seed)]
                && r == (if saveError.Some? then Err(saveError.value) else Ok(UuidFrom(seed)))
    {
      var key := SessionKey(channel, userId);
      if key in sessions {
        return Ok(sessions[key]);
      }
      var sessionId := GenerateUuid(seed);
      sessions := sessions[key := sessionId];
      if saveError.Some? {
        return Err(saveError.value);
      }
      return Ok(sessionId);
    }

    /** `reset_session`: forgets the user's session, touching no other. */
    method ResetSession(channel: string, userId: string, saveError: Option<string>) returns (r: Result<()>)
      modifies this
      ensures sessions == old(sessions) - {SessionKey(channel, userId)}
      ensures pending == old(pending) && approved == old(approved)
      ensures r == if saveError.Some? then Err(saveError.value) else Ok(())
    {
      sessions := sessions - {SessionKey(channel, userId)};
      if saveError.Some? {
        return Err(saveError.value);
      }
      return Ok(());
    }
  }

  /** Appending a request with a fresh code for a user without one keeps the list valid. */
  lemma AppendKeepsValid(reqs: seq<PendingRequest>, req: PendingRequest)
    requires DistinctCodes(reqs) && OnePerUser(reqs)
    requires req.code !in Codes(reqs)
    requires FindRequestFor(reqs, req.channel, req.userId).None?
    ensures DistinctCodes(reqs + [req]) && OnePerUser(reqs + [req])
  {
    var r := reqs + [req];
    forall i, j | 0 <= i < j < |r| ensures r[i].code != r[j].code {
      if j == |reqs| {
        assert r[i] == reqs[i];
      }
    }
  }

  /** Removing one request keeps the list valid. */
  lemma RemoveKeepsValid(reqs: seq<PendingRequest>, k: nat)
    requires DistinctCodes(reqs) && OnePerUser(reqs) && k < |reqs|
    ensures DistinctCodes(reqs[..k] + reqs[k + 1..]) && OnePerUser(reqs[..k] + reqs[k + 1..])
  {
    var r := reqs[..k] + reqs[k + 1..];
    forall i | 0 <= i < |r| ensures r[i] == reqs[if i < k then i else i + 1] {
    }
  }

  /** An approved user stays approved whatever else is approved later. */
  lemma ApprovalIsPermanent(approved: map<string, seq<string>>, channel: string, userId: string,
                            otherChannel: string, otherUser: string)
    requires channel in approved && userId in approved[channel]
    ensures var after := WithApproved(approved, otherChannel, otherUser);
            channel in after && userId in after[channel]
  {
  }
}
