/**
 The state of a redemption on both sides of the wire, and what must hold of it whatever a crash leaves.
 Each durable step of the client and each answer of the server is shown to preserve it.
 */
module EnrollmentSafety {
  import opened Options
  import opened CredentialFormat
  import opened PrivateDirectory

  const JOURNAL := "redemption-recovery.json"
  const LOCK := "redemption-recovery.lock"

  datatype File = JournalFile(journal: Journal) | CredentialFile(credential: string) | ForeignFile(body: string)

  /** The credentials the client accepts, the journals whose size check passes before the first request, and
      the journals that fit the file limit. The protocol needs no more of them than `Sound` says. */
  datatype Format = Format(accepts: string -> bool, reserves: Journal -> bool, fits: Journal -> bool)

  ghost predicate RoomFor(f: Format, j: Journal, credential: string) {
    var filled := j.(credential := credential);
    f.reserves(filled) == f.reserves(j) && (f.accepts(credential) && f.reserves(j) ==> f.fits(filled))
  }

  ghost predicate Sound(f: Format) {
    (forall c | f.accepts(c) :: c != "") && forall j, c :: RoomFor(f, j, c)
  }

  /** The format of the enrollment command is sound: the reservation is exact. */
  lemma EnrollmentFormatIsSound()
    ensures Sound(Format(ValidStoredCredential, JournalCanPersistCredential, JournalFits))
  {
    var f := Format(ValidStoredCredential, JournalCanPersistCredential, JournalFits);
    forall j: Journal, c: string ensures RoomFor(f, j, c) {
      if f.accepts(c) { ReservationIsExact(j, c); }
    }
  }

  /** `minted` is the server's side: the credential it issued for each idempotency key it accepted. */
  datatype State = State(
    format: Format, dir: Directory<File>, minted: map<string, string>, posted: set<string>, rejected: set<string>)

  /** A journal that a crash may leave behind is usable: it has room for its credential, and that credential,
      once filled in, is the one the server minted for its key and the only thing at its destination. */
  ghost predicate Usable(s: State, j: Journal) {
    && j.credentialPath != JOURNAL && s.format.reserves(j)
    && (j.credential == "" ==> Certain(s.dir, j.credentialPath, None))
    && (j.credential != "" ==>
          && j.idempotencyKey in s.minted && j.credential == s.minted[j.idempotencyKey]
          && Possible(s.dir, j.credentialPath) <= {None, Some(CredentialFile(j.credential))})
  }

  ghost predicate IsJournalOf(o: Option<File>, key: string) {
    o.Some? && o.value.JournalFile? && o.value.journal.idempotencyKey == key
  }

  ghost predicate JournalCertainly(s: State, key: string) {
    forall o | o in Possible(s.dir, JOURNAL) :: IsJournalOf(o, key)
  }

  ghost predicate CredentialCertainly(s: State, key: string, path: string) {
    path != JOURNAL && key in s.minted && Certain(s.dir, path, Some(CredentialFile(s.minted[key])))
  }

  ghost predicate Settled(s: State, key: string) {
    key in s.rejected || exists path :: CredentialCertainly(s, key, path)
  }

  /** No accepted redemption is lost: whatever a crash leaves, the journal of the key survives, or the
      credential it minted is on disk, or the server has rejected the key. */
  ghost predicate Kept(s: State, key: string) {
    JournalCertainly(s, key) || Settled(s, key)
  }

  ghost predicate Entries(d: Directory<File>) {
    Coherent(d) && forall n | n != JOURNAL :: Possible(d, n) <= {None, Live(d, n)}
  }

  ghost predicate JournalsUsable(s: State) {
    forall o | o in Possible(s.dir, JOURNAL) && o.Some? && o.value.JournalFile? :: Usable(s, o.value.journal)
  }

  ghost predicate Safe(s: State) {
    && Sound(s.format) && Entries(s.dir) && JournalsUsable(s)
    && (forall key | key in s.minted :: key in s.posted && s.format.accepts(s.minted[key]))
    && (forall key | key in s.posted :: Kept(s, key))
  }

  /** A power loss or a directory sync: every entry becomes one of the states it could be in. */
  lemma NarrowingIsSafe(s: State, d: Directory<File>)
    requires Safe(s) && Survives(s.dir, d)
    ensures Safe(s.(dir := d))
  {
    var s' := s.(dir := d);
    assert forall n :: Possible(d, n) == {Live(d, n)};
    forall key | key in s.posted
      ensures Kept(s', key)
    {
      if path :| CredentialCertainly(s, key, path) {
        assert CredentialCertainly(s', key, path);
      }
    }
  }

  /** Publishing a new journal where none is: every earlier key is settled already. */
  lemma NewJournalIsSafe(s: State, j: Journal)
    requires Safe(s) && Live(s.dir, JOURNAL) == None && Usable(s, j) && j.credential == ""
    ensures Safe(s.(dir := Publish(s.dir, JOURNAL, JournalFile(j))))
  {
    var s' := s.(dir := Publish(s.dir, JOURNAL, JournalFile(j)));
    forall key | key in s.posted
      ensures Kept(s', key)
    {
      assert !IsJournalOf(Live(s.dir, JOURNAL), key);
      SettledStays(s, s', key);
    }
  }

  lemma SettledStays(s: State, s': State, key: string)
    requires Settled(s, key) && s'.minted == s.minted && s.rejected <= s'.rejected
    requires forall path | CredentialCertainly(s, key, path) :: Possible(s'.dir, path) == Possible(s.dir, path)
    ensures Settled(s', key)
  {
    if path :| CredentialCertainly(s, key, path) {
      assert CredentialCertainly(s', key, path);
    }
  }

  /** Filling the confirmed credential into the journal keeps its key in every crash state. */
  lemma FilledJournalIsSafe(s: State, j: Journal)
    requires Safe(s) && Certain(s.dir, JOURNAL, Some(JournalFile(j)))
    requires j.idempotencyKey in s.minted && (j.credential == "" || j.credential == s.minted[j.idempotencyKey])
    ensures var filled := j.(credential := s.minted[j.idempotencyKey]);
            Safe(s.(dir := Publish(s.dir, JOURNAL, JournalFile(filled))))
  {
    var filled := j.(credential := s.minted[j.idempotencyKey]);
    var s' := s.(dir := Publish(s.dir, JOURNAL, JournalFile(filled)));
    assert RoomFor(s.format, j, filled.credential);
    assert Possible(s'.dir, JOURNAL) == {Some(JournalFile(j)), Some(JournalFile(filled))};
    assert Usable(s, j) && Usable(s', j) && Usable(s', filled);
    forall key | key in s.posted
      ensures Kept(s', key)
    {
      if JournalCertainly(s, key) {
        assert IsJournalOf(Some(JournalFile(j)), key);
      } else {
        SettledStays(s, s', key);
      }
    }
  }

  /** Linking the credential while the journal certainly holds it. */
  lemma CredentialLinkIsSafe(s: State, j: Journal)
    requires Safe(s) && Certain(s.dir, JOURNAL, Some(JournalFile(j))) && j.credential != ""
    requires Live(s.dir, j.credentialPath) == None
    ensures Safe(s.(dir := Publish(s.dir, j.credentialPath, CredentialFile(j.credential))))
  {
    var s' := s.(dir := Publish(s.dir, j.credentialPath, CredentialFile(j.credential)));
    assert Usable(s, j) && Certain(s.dir, j.credentialPath, None);
    assert Usable(s', j);
    forall key | key in s.posted
      ensures Kept(s', key)
    {
      if !JournalCertainly(s, key) {
        SettledStays(s, s', key);
      }
    }
  }

  /** Removing the journal of a settled key. */
  lemma JournalRemovalIsSafe(s: State, j: Journal)
    requires Safe(s) && Live(s.dir, JOURNAL) == Some(JournalFile(j)) && Settled(s, j.idempotencyKey)
    ensures Safe(s.(dir := Unlink(s.dir, JOURNAL)))
  {
    var s' := s.(dir := Unlink(s.dir, JOURNAL));
    forall key | key in s.posted
      ensures Kept(s', key)
    {
      if JournalCertainly(s, key) {
        assert IsJournalOf(Live(s.dir, JOURNAL), key);
      }
      SettledStays(s, s', key);
    }
  }

  /** A POST of the journal's key, whatever the server does with it. */
  lemma PostIsSafe(s: State, key: string, mint: Option<string>, reject: bool)
    requires Safe(s) && JournalCertainly(s, key)
    requires mint.Some? ==> s.format.accepts(mint.value)
    ensures Safe(Posted(s, key, mint, reject))
  {
    var s' := Posted(s, key, mint, reject);
    forall k | k in s'.posted
      ensures Kept(s', k)
    {
      if k != key && !JournalCertainly(s, k) {
        if path :| CredentialCertainly(s, k, path) {
          assert CredentialCertainly(s', k, path);
        }
      }
    }
    forall o | o in Possible(s.dir, JOURNAL) && o.Some? && o.value.JournalFile?
      ensures Usable(s', o.value.journal)
    {
      assert Usable(s, o.value.journal);
    }
  }

  /** The server mints for a key it has not seen and keeps what it minted. */
  function Posted(s: State, key: string, mint: Option<string>, reject: bool): State {
    State(s.format, s.dir,
          if mint.Some? && key !in s.minted then s.minted[key := mint.value] else s.minted,
          s.posted + {key},
          if reject then s.rejected + {key} else s.rejected)
  }

  /** At most one key is ever in flight: a second key is posted only after the first was settled. */
  lemma OneKeyInFlight(s: State, k1: string, k2: string)
    requires Safe(s) && k1 in s.posted && k2 in s.posted && !Settled(s, k1) && !Settled(s, k2)
    ensures k1 == k2
  {
    assert IsJournalOf(Live(s.dir, JOURNAL), k1) && IsJournalOf(Live(s.dir, JOURNAL), k2);
  }

  /** An unsettled key can be recovered after any crash: the journal that comes back is its own, and its
      destination is free or holds exactly what the journal has confirmed. */
  lemma UnsettledIsRecoverable(s: State, key: string, after: Directory<File>)
    requires Safe(s) && key in s.posted && !Settled(s, key) && Survives(s.dir, after)
    ensures IsJournalOf(Live(after, JOURNAL), key)
    ensures var j := Live(after, JOURNAL).value.journal;
            && s.format.reserves(j)
            && (Live(after, j.credentialPath) == None
                || (key in s.minted && j.credential == s.minted[key]
                   && Live(after, j.credentialPath) == Some(CredentialFile(j.credential))))
  {
    assert Kept(s, key);
    assert Usable(s, Live(after, JOURNAL).value.journal);
  }
}
