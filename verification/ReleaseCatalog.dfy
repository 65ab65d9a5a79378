/**
 Signed release catalogs: the check a candidate passes before it replaces the live catalog, and what
 that check of two neighbours gives over chains of any length.
 */
module ReleaseCatalog {
  import opened Options

  datatype Release = Release(name: string, sequence: int, manifestPath: string, manifestLength: int,
      manifestSha256: string)

  /** Instants are seconds; the catalog's text forms are already decoded. */
  datatype Catalog = Catalog(
    sequence: int, publishedAt: int, expiresAt: int, currentRelease: string,
    minimumSafeSequence: int, releases: seq<Release>, criticalBlocks: seq<int>)

  const MAX_LIFETIME := 30 * 24 * 60 * 60

  /** `r` is the named current release: no listed release is newer and every block lies below it. */
  predicate IsCurrent(c: Catalog, r: Release) {
    && r in c.releases
    && r.name == c.currentRelease
    && (forall other | other in c.releases :: other.sequence <= r.sequence)
    && (forall b | b in c.criticalBlocks :: 1 <= b < r.sequence)
  }

  /** What a parsed catalog guarantees about its entries: names and sequences are keys, the floor covers all. */
  ghost predicate WellFormed(c: Catalog) {
    && c.sequence >= 1
    && c.minimumSafeSequence >= 1
    && c.publishedAt < c.expiresAt <= c.publishedAt + MAX_LIFETIME
    && (forall r, s | r in c.releases && s in c.releases && (r.name == s.name || r.sequence == s.sequence) :: r == s)
    && (forall r | r in c.releases :: c.minimumSafeSequence <= r.sequence)
    && exists r :: IsCurrent(c, r)
  }

  predicate Fresh(c: Catalog, now: int) {
    c.publishedAt <= now < c.expiresAt
  }

  /** A release sequence the catalog neither blocks nor puts below its floor. */
  predicate Eligible(c: Catalog, sequence: int) {
    c.minimumSafeSequence <= sequence && sequence !in c.criticalBlocks
  }

  /** Listed, digest-matched and eligible. */
  predicate Allowed(c: Catalog, name: string, sequence: int, digest: string) {
    && Eligible(c, sequence)
    && exists r :: r in c.releases && r.name == name && r.sequence == sequence && r.manifestSha256 == digest
  }

  method Allows(c: Catalog, name: string, sequence: int, digest: string) returns (ok: bool)
    ensures ok <==> Allowed(c, name, sequence, digest)
  {
    if sequence < c.minimumSafeSequence { return false; }
    for i := 0 to |c.criticalBlocks|
      invariant sequence !in c.criticalBlocks[..i]
    {
      if c.criticalBlocks[i] == sequence { return false; }
    }
    assert c.criticalBlocks[..|c.criticalBlocks|] == c.criticalBlocks;
    for i := 0 to |c.releases|
      invariant forall r | r in c.releases[..i] ::
                  !(r.name == name && r.sequence == sequence && r.manifestSha256 == digest)
    {
      var entry := c.releases[i];
      if entry.name == name && entry.sequence == sequence && entry.manifestSha256 == digest { return true; }
    }
    assert c.releases[..|c.releases|] == c.releases;
    return false;
  }

  /** Nothing the earlier catalog ruled out becomes eligible. */
  ghost predicate NoRevival(earlier: Catalog, later: Catalog) {
    forall s: int :: Eligible(later, s) ==> Eligible(earlier, s)
  }

  /** Every entry of the earlier catalog that is still eligible is listed unchanged. */
  ghost predicate Retains(earlier: Catalog, later: Catalog) {
    forall r | r in earlier.releases && Eligible(later, r.sequence) :: r in later.releases
  }

  /** The intended order on catalogs. */
  ghost predicate Advances(earlier: Catalog, later: Catalog) {
    && earlier.sequence < later.sequence
    && earlier.minimumSafeSequence <= later.minimumSafeSequence
    && NoRevival(earlier, later)
    && Retains(earlier, later)
  }

  datatype Verdict = Accepted | NotFresh | SequenceBehind | FloorLowered | BlockRemoved | ReleaseDropped

  /**
   The publication check. Each rejection names the first part of the order that fails, and acceptance
   is exactly freshness together with the whole order on catalogs.
   */
  method ValidatePublicationCatalog(candidate: Catalog, previous: Option<Catalog>, now: int) returns (verdict: Verdict)
    ensures verdict.NotFresh? <==> !Fresh(candidate, now)
    ensures verdict.Accepted? <==> Fresh(candidate, now) && (previous.Some? ==> Advances(previous.value, candidate))
    ensures verdict.SequenceBehind?
            <==> Fresh(candidate, now) && previous.Some? && candidate.sequence <= previous.value.sequence
    ensures verdict.FloorLowered? ==> previous.Some? && previous.value.sequence < candidate.sequence
    ensures verdict.FloorLowered? ==> candidate.minimumSafeSequence < previous.value.minimumSafeSequence
    ensures verdict.BlockRemoved? || verdict.ReleaseDropped? ==>
              previous.Some? && previous.value.sequence < candidate.sequence
    ensures verdict.BlockRemoved? || verdict.ReleaseDropped? ==>
              previous.value.minimumSafeSequence <= candidate.minimumSafeSequence
    ensures verdict.BlockRemoved? ==> !NoRevival(previous.value, candidate)
    ensures verdict.ReleaseDropped? ==> NoRevival(previous.value, candidate) && !Retains(previous.value, candidate)
  {
    if !Fresh(candidate, now) { return NotFresh; }
    if previous.None? { return Accepted; }
    var prior := previous.value;
    if candidate.sequence <= prior.sequence { return SequenceBehind; }
    if candidate.minimumSafeSequence < prior.minimumSafeSequence { return FloorLowered; }
    var blocked: set<int> := {};
    for i := 0 to |candidate.criticalBlocks|
      invariant forall s :: s in blocked <==> s in candidate.criticalBlocks[..i]
    {
      blocked := blocked + {candidate.criticalBlocks[i]};
    }
    assert candidate.criticalBlocks[..|candidate.criticalBlocks|] == candidate.criticalBlocks;
    var kept := KeepsBlocks(candidate, prior, blocked);
    if !kept { return BlockRemoved; }
    for i := 0 to |prior.releases|
      invariant forall r | r in prior.releases[..i] && Eligible(candidate, r.sequence) :: r in candidate.releases
    {
      var entry := prior.releases[i];
      if entry.sequence < candidate.minimumSafeSequence || entry.sequence in blocked { continue; }
      var retained := false;
      for j := 0 to |candidate.releases|
        invariant !retained
        invariant entry !in candidate.releases[..j]
      {
        if candidate.releases[j] == entry { retained := true; break; }
      }
      assert candidate.releases[..|candidate.releases|] == candidate.releases;
      if !retained { return ReleaseDropped; }
    }
    assert prior.releases[..|prior.releases|] == prior.releases;
    return Accepted;
  }

  /** The pass over the live blocks: blocks below the new floor may go. */
  method KeepsBlocks(candidate: Catalog, prior: Catalog, blocked: set<int>) returns (kept: bool)
    requires forall s :: s in blocked <==> s in candidate.criticalBlocks
    requires prior.minimumSafeSequence <= candidate.minimumSafeSequence
    ensures kept <==> NoRevival(prior, candidate)
  {
    for i := 0 to |prior.criticalBlocks|
      invariant forall b | b in prior.criticalBlocks[..i] :: !Eligible(candidate, b)
    {
      var b := prior.criticalBlocks[i];
      if b < candidate.minimumSafeSequence { continue; }
      if b !in blocked {
        assert Eligible(candidate, b) && !Eligible(prior, b);
        return false;
      }
    }
    assert prior.criticalBlocks[..|prior.criticalBlocks|] == prior.criticalBlocks;
    return true;
  }

  /** Catalogs published one after another, each checked only against the one it replaces. */
  ghost predicate Chain(catalogs: seq<Catalog>) {
    && (forall c | c in catalogs :: WellFormed(c))
    && (forall i | 0 < i < |catalogs| :: Advances(catalogs[i - 1], catalogs[i]))
  }

  /** A sequence once blocked or below the floor is never eligible again, and floors and numbers only rise. */
  lemma {:induction false} NeverEligibleAgain(catalogs: seq<Catalog>, i: nat, j: nat, sequence: int)
    requires Chain(catalogs) && i <= j < |catalogs|
    ensures catalogs[i].sequence + (j - i) <= catalogs[j].sequence
    ensures catalogs[i].minimumSafeSequence <= catalogs[j].minimumSafeSequence
    ensures Eligible(catalogs[j], sequence) ==> Eligible(catalogs[i], sequence)
    decreases j
  {
    if i < j {
      NeverEligibleAgain(catalogs, i, j - 1, sequence);
      assert Advances(catalogs[j - 1], catalogs[j]);
    }
  }

  /** An entry still eligible in any later catalog is listed there unchanged. */
  lemma {:induction false} StillEligibleStillListed(catalogs: seq<Catalog>, i: nat, j: nat, r: Release)
    requires Chain(catalogs) && i <= j < |catalogs|
    requires r in catalogs[i].releases && Eligible(catalogs[j], r.sequence)
    ensures r in catalogs[j].releases
    decreases j
  {
    if i < j {
      assert Advances(catalogs[j - 1], catalogs[j]);
      assert Eligible(catalogs[j - 1], r.sequence);
      StillEligibleStillListed(catalogs, i, j - 1, r);
    }
  }

  /**
   A release sequence means one release for ever: while it stays eligible, later catalogs allow exactly
   the name and digest an earlier catalog allowed for it.
   */
  lemma AllowedMeansOneRelease(catalogs: seq<Catalog>, i: nat, j: nat, name: string, sequence: int, digest: string)
    requires Chain(catalogs) && i <= j < |catalogs|
    requires Allowed(catalogs[i], name, sequence, digest) && Eligible(catalogs[j], sequence)
    ensures forall n, d :: Allowed(catalogs[j], n, sequence, d) <==> n == name && d == digest
  {
    var r :| r in catalogs[i].releases && r.name == name && r.sequence == sequence && r.manifestSha256 == digest;
    StillEligibleStillListed(catalogs, i, j, r);
    assert WellFormed(catalogs[j]);
  }

  /** The current release never goes back to an older one. */
  lemma CurrentNeverGoesBack(catalogs: seq<Catalog>, i: nat, j: nat, was: Release, now: Release)
    requires Chain(catalogs) && i <= j < |catalogs|
    requires IsCurrent(catalogs[i], was) && IsCurrent(catalogs[j], now)
    ensures was.sequence <= now.sequence
  {
    assert WellFormed(catalogs[j]);
    if Eligible(catalogs[j], was.sequence) {
      StillEligibleStillListed(catalogs, i, j, was);
    }
  }
}
