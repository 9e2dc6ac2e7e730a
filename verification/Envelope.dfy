/**
 * Envelope encryption of credentials: length-prefixed associated data, the nonce-ciphertext-tag payload layout, and
 * key rotation. AES-256-GCM is the ideal authenticated encryption of sections 7.1 and 7.2 of NIST SP 800-38D: a
 * payload opens exactly under the key and associated data it was issued with, and nonces are never repeated.
 */
module Envelopes {
  import opened Common

  type Byte = b: int | 0 <= b < 256

  type Bytes = seq<Byte>

  const KEY_BYTES := 32
  const NONCE_BYTES := 12
  const TAG_BYTES := 16

  /** Who a credential belongs to, UTF-8 encoded. */
  datatype Context = Context(userId: Bytes, provider: Bytes, field: Bytes)

  datatype Error =
    | EmptyCredential | LengthOverflow | PayloadTooShort | TagMismatch | UnknownKek
    | NoKek | WrongKekLength | ActiveKekMissing

  // ---- Associated data ---------------------------------------------------------------------------------------

  lemma U32Recomposes(n: nat)
    requires n < 0x1_0000_0000
    ensures n == 0x100_0000 * (n / 0x100_0000) + 0x1_0000 * (n / 0x1_0000 % 256) + 256 * (n / 256 % 256) + n % 256
  {
    var a, b, c := n / 256, n / 0x1_0000, n / 0x100_0000;
    assert a / 256 == b && b / 256 == c;
    assert n == 256 * a + n % 256 && a == 256 * b + a % 256 && b == 256 * c + b % 256;
  }

  function BigEndian(a: int, b: int, c: int, d: int): int {
    0x100_0000 * a + 0x1_0000 * b + 256 * c + d
  }

  function U32(n: nat): Bytes
    requires n < 0x1_0000_0000
  {
    [n / 0x100_0000, n / 0x1_0000 % 256, n / 256 % 256, n % 256]
  }

  /** A length is written with its highest byte first. */
  lemma U32IsBigEndian(n: nat)
    requires n < 0x1_0000_0000
    ensures |U32(n)| == 4 && n == BigEndian(U32(n)[0], U32(n)[1], U32(n)[2], U32(n)[3])
  {
    U32Recomposes(n);
  }

  predicate FitsU32(part: Bytes) {
    |part| < 0x1_0000_0000
  }

  function Prefixed(part: Bytes): Bytes
    requires FitsU32(part)
  {
    U32(|part|) + part
  }

  /** Writing a longer length fails, so no associated data exists for such a context. */
  function BuildAad(ctx: Context): Result<Bytes, Error> {
    if FitsU32(ctx.userId) && FitsU32(ctx.provider) && FitsU32(ctx.field)
    then Ok(Prefixed(ctx.userId) + (Prefixed(ctx.provider) + Prefixed(ctx.field)))
    else Err(LengthOverflow)
  }

  lemma U32Injective(m: nat, n: nat)
    requires m < 0x1_0000_0000 && n < 0x1_0000_0000 && U32(m) == U32(n)
    ensures m == n
  {
    U32IsBigEndian(m);
    U32IsBigEndian(n);
  }

  lemma PrefixedDecodes(p: Bytes, r: Bytes, q: Bytes, r': Bytes)
    requires FitsU32(p) && FitsU32(q) && Prefixed(p) + r == Prefixed(q) + r'
    ensures p == q && r == r'
  {
    var w, w' := Prefixed(p) + r, Prefixed(q) + r';
    assert U32(|p|) == w[..4] && U32(|q|) == w'[..4];
    U32Injective(|p|, |q|);
    assert p == w[4..4 + |p|] && q == w'[4..4 + |q|];
    assert r == w[4 + |p|..] && r' == w'[4 + |q|..];
  }

  /** No two contexts share associated data: the splitting attack the comment describes is impossible. */
  lemma AadInjective(a: Context, b: Context)
    requires BuildAad(a).Ok? && BuildAad(a) == BuildAad(b)
    ensures a == b
  {
    PrefixedDecodes(a.userId, Prefixed(a.provider) + Prefixed(a.field),
                    b.userId, Prefixed(b.provider) + Prefixed(b.field));
    PrefixedDecodes(a.provider, Prefixed(a.field), b.provider, Prefixed(b.field));
    assert Prefixed(a.field) + [] == Prefixed(a.field) && Prefixed(b.field) + [] == Prefixed(b.field);
    PrefixedDecodes(a.field, [], b.field, []);
  }

  // ---- Ideal authenticated encryption ------------------------------------------------------------------------

  /** One encryption as the outside sees it. */
  datatype Sealing = Sealing(key: Bytes, nonce: Bytes, aad: Bytes, body: Bytes, tag: Bytes)
  {
    function Payload(): Bytes {
      nonce + body + tag
    }
  }

  /** Everything ever encrypted, with the plaintext. */
  type Issued = map<Sealing, Bytes>

  ghost predicate NoncesDistinct(issued: Issued) {
    forall s, t :: s in issued && t in issued && s.nonce == t.nonce ==> s == t
  }

  predicate FreshNonce(issued: Issued, nonce: Bytes) {
    |nonce| == NONCE_BYTES && forall s :: s in issued ==> s.nonce != nonce
  }

  /** What an encryption may produce: a fresh nonce, a body as long as the plaintext, a full tag. */
  predicate MayIssue(issued: Issued, s: Sealing, plaintext: Bytes) {
    FreshNonce(issued, s.nonce) && |s.body| == |plaintext| && |s.tag| == TAG_BYTES
  }

  /** The three parts of a payload, by position from both ends. */
  function Split(key: Bytes, payload: Bytes, aad: Bytes): (s: Sealing)
    requires |payload| >= NONCE_BYTES + TAG_BYTES
    ensures s.Payload() == payload && |s.nonce| == 12 && |s.tag| == 16 && s.key == key && s.aad == aad
  {
    Sealing(key, payload[..NONCE_BYTES], aad, payload[NONCE_BYTES..|payload| - TAG_BYTES],
            payload[|payload| - TAG_BYTES..])
  }

  function OpenWithKey(issued: Issued, key: Bytes, payload: Bytes, aad: Bytes): Result<Bytes, Error> {
    if |payload| < NONCE_BYTES + TAG_BYTES then Err(PayloadTooShort)
    else
      var s := Split(key, payload, aad);
      if s in issued then Ok(issued[s]) else Err(TagMismatch)
  }

  /** Slicing inverts concatenation. */
  lemma SplitInverts(s: Sealing)
    requires |s.nonce| == NONCE_BYTES && |s.tag| == TAG_BYTES
    ensures |s.Payload()| >= NONCE_BYTES + TAG_BYTES && Split(s.key, s.Payload(), s.aad) == s
  {
    var p := s.Payload();
    assert p[..NONCE_BYTES] == s.nonce && p[NONCE_BYTES..|p| - TAG_BYTES] == s.body && p[|p| - TAG_BYTES..] == s.tag;
  }

  /** The bytes are what was issued under this key and associated data: nonce, body and tag in that order. */
  ghost predicate IssuedAs(issued: Issued, key: Bytes, payload: Bytes, aad: Bytes, plaintext: Bytes) {
    exists s :: s in issued && issued[s] == plaintext && s.key == key && s.aad == aad
                && |s.nonce| == 12 && |s.tag| == 16 && s.Payload() == payload
  }

  /** A payload of fewer than 28 bytes is too short; any other opens iff it was issued, or else its tag is wrong. */
  lemma OpensIff(issued: Issued, key: Bytes, payload: Bytes, aad: Bytes, plaintext: Bytes)
    ensures var r := OpenWithKey(issued, key, payload, aad);
            && (r == Ok(plaintext) <==> IssuedAs(issued, key, payload, aad, plaintext))
            && (r == Err(PayloadTooShort) <==> |payload| < 28)
            && (r.Err? && |payload| >= 28 ==> r == Err(TagMismatch))
  {
    if s :| s in issued && issued[s] == plaintext && s.key == key && s.aad == aad
            && |s.nonce| == 12 && |s.tag| == 16 && s.Payload() == payload {
      SplitInverts(s);
    }
    if |payload| >= 28 && OpenWithKey(issued, key, payload, aad).Ok? {
      var s := Split(key, payload, aad);
      assert s in issued && s.Payload() == payload;
    }
  }

  /** An issued payload opens under its own key and associated data, and under no other. */
  lemma OpensExactly(issued: Issued, s: Sealing, key: Bytes, aad: Bytes)
    requires NoncesDistinct(issued) && s in issued && |s.nonce| == NONCE_BYTES && |s.tag| == TAG_BYTES
    ensures OpenWithKey(issued, key, s.Payload(), aad)
            == if key == s.key && aad == s.aad then Ok(issued[s]) else Err(TagMismatch)
  {
    SplitInverts(s.(key := key, aad := aad));
    assert s.(key := key, aad := aad).Payload() == s.Payload();
  }

  // ---- The cipher --------------------------------------------------------------------------------------------

  datatype Keks = Keks(keys: map<string, Bytes>, active: string)

  /** Why a key set is rejected at construction, if it is. */
  function Check(k: Keks): (problem: Option<Error>)
    ensures problem.None? <==>
            k.keys != map[] && (forall id :: id in k.keys ==> |k.keys[id]| == 32) && k.active in k.keys
    ensures problem == Some(NoKek) <==> k.keys == map[]
    ensures problem == Some(WrongKekLength) <==> exists id :: id in k.keys && |k.keys[id]| != 32
    ensures problem.Some? ==> problem.value in {NoKek, WrongKekLength, ActiveKekMissing}
  {
    if k.keys == map[] then Some(NoKek)
    else if exists id :: id in k.keys && |k.keys[id]| != KEY_BYTES then Some(WrongKekLength)
    else if k.active !in k.keys then Some(ActiveKekMissing)
    else None
  }

  datatype Sealed = Sealed(kekId: string, wrappedDek: Bytes, ciphertext: Bytes)

  /** The data key of a row, which opening uses and a rewrap moves, or why there is none. */
  function Unwrap(issued: Issued, k: Keks, sealed: Sealed, ctx: Context): Result<Bytes, Error> {
    var aad := BuildAad(ctx);
    if aad.Err? then aad
    else if sealed.kekId !in k.keys then Err(UnknownKek)
    else OpenWithKey(issued, k.keys[sealed.kekId], sealed.wrappedDek, aad.value)
  }

  function Opened(issued: Issued, k: Keks, sealed: Sealed, ctx: Context): (r: Result<Bytes, Error>)
    ensures r == Err(LengthOverflow) <==>
            |ctx.userId| >= 0x1_0000_0000 || |ctx.provider| >= 0x1_0000_0000 || |ctx.field| >= 0x1_0000_0000
    ensures BuildAad(ctx).Ok? ==> (r == Err(UnknownKek) <==> sealed.kekId !in k.keys)
    ensures r.Err? ==> r.error in {LengthOverflow, UnknownKek, PayloadTooShort, TagMismatch}
  {
    var dek := Unwrap(issued, k, sealed, ctx);
    if dek.Err? then dek else OpenWithKey(issued, dek.value, sealed.ciphertext, BuildAad(ctx).value)
  }

  /** What the cipher encrypts with: random nonces, and whatever body and tag the algorithm computes. */
  datatype Draw = Draw(nonce: Bytes, body: Bytes, tag: Bytes)
  {
    function Under(key: Bytes, aad: Bytes): Sealing {
      Sealing(key, nonce, aad, body, tag)
    }
  }

  // ---- Rotation ----------------------------------------------------------------------------------------------

  /** One stored credential and everything the algorithm ever encrypted. */
  datatype World = World(issued: Issued, sealed: Sealed)

  datatype Step =
    | Elsewhere(s: Sealing, plaintext: Bytes)   // any other encryption, under any key
    | Rewrap(keks: Keks, draw: Draw)            // the rotation job, under that moment's configuration

  predicate Rewraps(w: World, ctx: Context, step: Step) {
    step.Rewrap? && w.sealed.kekId != step.keks.active && Unwrap(w.issued, step.keks, w.sealed, ctx).Ok?
    && step.keks.active in step.keks.keys
  }

  function Next(w: World, ctx: Context, step: Step): World {
    match step
    case Elsewhere(s, plaintext) => w.(issued := w.issued[s := plaintext])
    case Rewrap(k, draw) =>
      if !Rewraps(w, ctx, step) then w
      else
        var dek, s := Unwrap(w.issued, k, w.sealed, ctx).value, draw.Under(k.keys[k.active], BuildAad(ctx).value);
        World(w.issued[s := dek], Sealed(k.active, s.Payload(), w.sealed.ciphertext))
  }

  /** Every configuration is valid and agrees with `ring` on what each key id means. */
  ghost predicate Configured(ring: map<string, Bytes>, k: Keks) {
    Check(k).None? && forall id :: id in k.keys ==> id in ring && ring[id] == k.keys[id]
  }

  ghost predicate Lawful(w: World, ctx: Context, ring: map<string, Bytes>, step: Step) {
    match step
    case Elsewhere(s, plaintext) => MayIssue(w.issued, s, plaintext)
    case Rewrap(k, draw) =>
      Configured(ring, k)
      && (Rewraps(w, ctx, step) ==>
            MayIssue(w.issued, draw.Under(k.keys[k.active], BuildAad(ctx).value),
                     Unwrap(w.issued, k, w.sealed, ctx).value))
  }

  function After(w: World, ctx: Context, steps: seq<Step>): World {
    if steps == [] then w else Next(After(w, ctx, steps[..|steps| - 1]), ctx, steps[|steps| - 1])
  }

  ghost predicate LawfulRun(w: World, ctx: Context, ring: map<string, Bytes>, steps: seq<Step>) {
    forall n :: 0 <= n < |steps| ==> Lawful(After(w, ctx, steps[..n]), ctx, ring, steps[n])
  }

  /** A payload that was issued under this key and associated data for this plaintext. */
  ghost predicate Holds(issued: Issued, key: Bytes, payload: Bytes, aad: Bytes, plaintext: Bytes) {
    |payload| >= NONCE_BYTES + TAG_BYTES
    && Split(key, payload, aad) in issued && issued[Split(key, payload, aad)] == plaintext
  }

  /** The stored credential wraps `dek`, which encrypts `plaintext`, both under the context's associated data. */
  ghost predicate Intact(w: World, aad: Bytes, ring: map<string, Bytes>, dek: Bytes, plaintext: Bytes) {
    && NoncesDistinct(w.issued)
    && w.sealed.kekId in ring
    && Holds(w.issued, ring[w.sealed.kekId], w.sealed.wrappedDek, aad, dek)
    && Holds(w.issued, dek, w.sealed.ciphertext, aad, plaintext)
  }

  /** What `seal` leaves: fresh encryptions of the plaintext under the DEK and of the DEK under the active KEK. */
  function SealedWorld(issued: Issued, k: Keks, aad: Bytes, dek: Bytes, plaintext: Bytes, body: Draw, wrap: Draw): World
    requires k.active in k.keys
  {
    var s, t := body.Under(dek, aad), wrap.Under(k.keys[k.active], aad);
    World(issued[s := plaintext][t := dek], Sealed(k.active, t.Payload(), s.Payload()))
  }

  lemma HoldsWhenIssued(issued: Issued, s: Sealing)
    requires s in issued && |s.nonce| == NONCE_BYTES && |s.tag| == TAG_BYTES
    ensures Holds(issued, s.key, s.Payload(), s.aad, issued[s])
  {
    SplitInverts(s);
  }

  lemma SealIsIntact(issued: Issued, k: Keks, ring: map<string, Bytes>, aad: Bytes, dek: Bytes, plaintext: Bytes,
                     body: Draw, wrap: Draw)
    requires NoncesDistinct(issued) && Configured(ring, k)
    requires MayIssue(issued, body.Under(dek, aad), plaintext)
    requires MayIssue(issued[body.Under(dek, aad) := plaintext], wrap.Under(k.keys[k.active], aad), dek)
    ensures Intact(SealedWorld(issued, k, aad, dek, plaintext, body, wrap), aad, ring, dek, plaintext)
  {
    var w := SealedWorld(issued, k, aad, dek, plaintext, body, wrap);
    HoldsWhenIssued(w.issued, body.Under(dek, aad));
    HoldsWhenIssued(w.issued, wrap.Under(k.keys[k.active], aad));
  }

  /** A later encryption with a fresh nonce disturbs no earlier one. */
  lemma HoldsAfterIssue(issued: Issued, s: Sealing, p: Bytes, key: Bytes, payload: Bytes, aad: Bytes, plaintext: Bytes)
    requires NoncesDistinct(issued) && MayIssue(issued, s, p) && Holds(issued, key, payload, aad, plaintext)
    ensures NoncesDistinct(issued[s := p]) && Holds(issued[s := p], key, payload, aad, plaintext)
  {
  }

  lemma IntactStep(w: World, ctx: Context, ring: map<string, Bytes>, step: Step, dek: Bytes, plaintext: Bytes)
    requires BuildAad(ctx).Ok? && Intact(w, BuildAad(ctx).value, ring, dek, plaintext) && Lawful(w, ctx, ring, step)
    ensures Intact(Next(w, ctx, step), BuildAad(ctx).value, ring, dek, plaintext)
    ensures Next(w, ctx, step).sealed.ciphertext == w.sealed.ciphertext
  {
    var aad := BuildAad(ctx).value;
    if step.Elsewhere? {
      HoldsAfterIssue(w.issued, step.s, step.plaintext, ring[w.sealed.kekId], w.sealed.wrappedDek, aad, dek);
      HoldsAfterIssue(w.issued, step.s, step.plaintext, dek, w.sealed.ciphertext, aad, plaintext);
    } else if Rewraps(w, ctx, step) {
      var s := step.draw.Under(step.keks.keys[step.keks.active], aad);
      assert Unwrap(w.issued, step.keks, w.sealed, ctx) == Ok(dek);
      HoldsAfterIssue(w.issued, s, dek, dek, w.sealed.ciphertext, aad, plaintext);
      HoldsWhenIssued(w.issued[s := dek], s);
    }
  }

  lemma {:induction false} IntactRun(w: World, ctx: Context, ring: map<string, Bytes>, steps: seq<Step>, dek: Bytes,
                                     plaintext: Bytes)
    requires BuildAad(ctx).Ok? && Intact(w, BuildAad(ctx).value, ring, dek, plaintext) && LawfulRun(w, ctx, ring, steps)
    ensures Intact(After(w, ctx, steps), BuildAad(ctx).value, ring, dek, plaintext)
    ensures After(w, ctx, steps).sealed.ciphertext == w.sealed.ciphertext
  {
    if steps != [] {
      var before, n := steps[..|steps| - 1], |steps| - 1;
      forall m | 0 <= m < |before| ensures Lawful(After(w, ctx, before[..m]), ctx, ring, before[m]) {
        assert before[..m] == steps[..m];
      }
      IntactRun(w, ctx, ring, before, dek, plaintext);
      assert Lawful(After(w, ctx, steps[..n]), ctx, ring, steps[n]);
      IntactStep(After(w, ctx, before), ctx, ring, steps[n], dek, plaintext);
    }
  }

  lemma OpensUnderOwnContextOnly(w: World, ctx: Context, ring: map<string, Bytes>, k: Keks, dek: Bytes,
                                 plaintext: Bytes, other: Context)
    requires BuildAad(ctx).Ok? && Intact(w, BuildAad(ctx).value, ring, dek, plaintext)
    requires Configured(ring, k) && w.sealed.kekId in k.keys
    ensures Opened(w.issued, k, w.sealed, ctx) == Ok(plaintext)
    ensures other != ctx ==> Opened(w.issued, k, w.sealed, other).Err?
  {
    if other != ctx && BuildAad(other).Ok? {
      if BuildAad(other) == BuildAad(ctx) { AadInjective(other, ctx); }
      var aad, own := BuildAad(other).value, BuildAad(ctx).value;
      var key := ring[w.sealed.kekId];
      assert Split(key, w.sealed.wrappedDek, aad).nonce == Split(key, w.sealed.wrappedDek, own).nonce;
    }
  }

  /**
   * The envelope round trip: after sealing, through any sequence of rewraps under changing active keys and any
   * other encryptions in between, the ciphertext is untouched, every configuration that knows the current key opens
   * to the sealed plaintext, and no other context opens it.
   */
  lemma RotationRoundTrip(issued: Issued, ring: map<string, Bytes>, k: Keks, ctx: Context, other: Context, dek: Bytes,
                          plaintext: Bytes, body: Draw, wrap: Draw, steps: seq<Step>, reader: Keks)
    requires BuildAad(ctx).Ok? && NoncesDistinct(issued) && Configured(ring, k) && Configured(ring, reader)
    requires var aad := BuildAad(ctx).value;
      MayIssue(issued, body.Under(dek, aad), plaintext)
      && MayIssue(issued[body.Under(dek, aad) := plaintext], wrap.Under(k.keys[k.active], aad), dek)
      && LawfulRun(SealedWorld(issued, k, aad, dek, plaintext, body, wrap), ctx, ring, steps)
      && After(SealedWorld(issued, k, aad, dek, plaintext, body, wrap), ctx, steps).sealed.kekId in reader.keys
    ensures var aad := BuildAad(ctx).value;
            var first := SealedWorld(issued, k, aad, dek, plaintext, body, wrap);
            var last := After(first, ctx, steps);
            && last.sealed.ciphertext == first.sealed.ciphertext
            && Opened(last.issued, reader, last.sealed, ctx) == Ok(plaintext)
            && (other != ctx ==> Opened(last.issued, reader, last.sealed, other).Err?)
  {
    var aad := BuildAad(ctx).value;
    var first := SealedWorld(issued, k, aad, dek, plaintext, body, wrap);
    SealIsIntact(issued, k, ring, aad, dek, plaintext, body, wrap);
    IntactRun(first, ctx, ring, steps, dek, plaintext);
    OpensUnderOwnContextOnly(After(first, ctx, steps), ctx, ring, reader, dek, plaintext, other);
  }

  /** A rotation step moves the row to the active key exactly when the configuration still holds the old key. */
  lemma RewrapSucceedsIff(w: World, ctx: Context, ring: map<string, Bytes>, step: Step, dek: Bytes, plaintext: Bytes)
    requires BuildAad(ctx).Ok? && Intact(w, BuildAad(ctx).value, ring, dek, plaintext)
    requires step.Rewrap? && Configured(ring, step.keks)
    ensures Next(w, ctx, step).sealed.kekId == step.keks.active
            <==> w.sealed.kekId in step.keks.keys
  {
  }

  // ---- The class ---------------------------------------------------------------------------------------------

  /** The ideal algorithm: it remembers what it encrypted. */
  class Aead {
    var issued: Issued

    constructor ()
      ensures issued == map[]
    {
      issued := map[];
    }
  }

  class EnvelopeCipher {
    const keks: Keks

    constructor (keks: Keks)
      requires Check(keks).None?
      ensures this.keks == keks
    {
      this.keks := keks;
    }

    /** Serialises the parts in a loop, each behind its 32-bit length. */
    method AssociatedData(ctx: Context) returns (aad: Result<Bytes, Error>)
      ensures aad == BuildAad(ctx)
    {
      var parts := [ctx.userId, ctx.provider, ctx.field];
      var chunks: Bytes := [];
      for i := 0 to |parts|
        invariant forall j :: 0 <= j < i ==> FitsU32(parts[j])
        invariant i == 0 ==> chunks == []
        invariant i == 1 ==> chunks == Prefixed(parts[0])
        invariant i == 2 ==> chunks == Prefixed(parts[0]) + Prefixed(parts[1])
        invariant i == 3 ==> chunks == Prefixed(parts[0]) + (Prefixed(parts[1]) + Prefixed(parts[2]))
      {
        if |parts[i]| >= 0x1_0000_0000 { return Err(LengthOverflow); }
        chunks := chunks + U32(|parts[i]|) + parts[i];
      }
      return Ok(chunks);
    }

    /** The DEK buffer is the one the random source filled; it is scrubbed before returning. */
    method Seal(aead: Aead, plaintext: Bytes, ctx: Context, dek: array<Byte>, body: Draw, wrap: Draw)
      returns (r: Result<Sealed, Error>)
      requires Check(keks).None? && dek.Length == KEY_BYTES
      modifies aead, dek
      ensures r == Err(EmptyCredential) <==> plaintext == []
      ensures plaintext != [] ==>
                (r.Err? <==> |ctx.userId| >= 0x1_0000_0000 || |ctx.provider| >= 0x1_0000_0000
                             || |ctx.field| >= 0x1_0000_0000)
                && (r.Err? ==> r == Err(LengthOverflow))
      ensures r.Err? ==> aead.issued == old(aead.issued)
      ensures r.Ok? ==>
                var w := SealedWorld(old(aead.issued), keks, BuildAad(ctx).value, old(dek[..]), plaintext, body, wrap);
                aead.issued == w.issued && r.value == w.sealed
      ensures r.Ok? ==> forall i :: 0 <= i < dek.Length ==> dek[i] == 0
    {
      if plaintext == [] { return Err(EmptyCredential); }
      var aad := AssociatedData(ctx);
      if aad.Err? { return Err(aad.error); }
      var ciphertext := body.nonce + body.body + body.tag;
      var wrappedDek := wrap.nonce + wrap.body + wrap.tag;
      var key := keks.keys[keks.active];
      aead.issued := aead.issued[body.Under(dek[..], aad.value) := plaintext];
      aead.issued := aead.issued[wrap.Under(key, aad.value) := dek[..]];
      r := Ok(Sealed(keks.active, wrappedDek, ciphertext));
      Scrub(dek);
    }

    method Open(aead: Aead, sealed: Sealed, ctx: Context) returns (r: Result<Bytes, Error>)
      ensures r == Opened(aead.issued, keks, sealed, ctx)
    {
      var aad := AssociatedData(ctx);
      if aad.Err? { return aad; }
      if sealed.kekId !in keks.keys { return Err(UnknownKek); }
      var dek := OpenWithKey(aead.issued, keks.keys[sealed.kekId], sealed.wrappedDek, aad.value);
      if dek.Err? { return dek; }
      r := OpenWithKey(aead.issued, dek.value, sealed.ciphertext, aad.value);
    }

    /** One rotation step: the row moves to the active key with its ciphertext untouched, or an error moves nothing. */
    method Rewrap(aead: Aead, sealed: Sealed, ctx: Context, draw: Draw) returns (r: Result<Sealed, Error>)
      requires Check(keks).None?
      modifies aead
      ensures World(aead.issued, if r.Ok? then r.value else sealed)
              == Next(World(old(aead.issued), sealed), ctx, Step.Rewrap(keks, draw))
      ensures r.Ok? <==> sealed.kekId == keks.active || Unwrap(old(aead.issued), keks, sealed, ctx).Ok?
      ensures r.Ok? ==> r.value.kekId == keks.active && r.value.ciphertext == sealed.ciphertext
      ensures sealed.kekId == keks.active ==> r == Ok(sealed) && aead.issued == old(aead.issued)
      ensures sealed.kekId != keks.active && BuildAad(ctx).Ok? ==>
                (r == Err(UnknownKek) <==> sealed.kekId !in keks.keys)
    {
      if sealed.kekId == keks.active { return Ok(sealed); }
      var aad := AssociatedData(ctx);
      if aad.Err? { return Err(aad.error); }
      if sealed.kekId !in keks.keys { return Err(UnknownKek); }
      var dek := OpenWithKey(aead.issued, keks.keys[sealed.kekId], sealed.wrappedDek, aad.value);
      if dek.Err? { return Err(dek.error); }
      aead.issued := aead.issued[draw.Under(keks.keys[keks.active], aad.value) := dek.value];
      r := Ok(Sealed(keks.active, draw.nonce + draw.body + draw.tag, sealed.ciphertext));
    }

    method Scrub(dek: array<Byte>)
      modifies dek
      ensures forall i :: 0 <= i < dek.Length ==> dek[i] == 0
    {
      for i := 0 to dek.Length
        invariant forall j :: 0 <= j < i ==> dek[j] == 0
      {
        dek[i] := 0;
      }
    }
  }
}
