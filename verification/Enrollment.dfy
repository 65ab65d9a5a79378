/**
 The redeem and recover commands: a write-ahead journal with one idempotency key, a server that mints at most
 one credential per key, and a credential file that is published without replacing anything. The process may
 die and the directory may lose power at every step.
 */
module Enrollment {
  import opened Options
  import opened Faults
  import opened CredentialFormat
  import opened PrivateDirectory
  import opened EnrollmentSafety

  datatype Material = Material(enrollmentId: string, clientBinding: string, code: string)

  /** What the command line and the identity file fix for one run. */
  datatype Run = Run(
    recoveryOnly: bool, material: Option<Material>, credentialPath: string,
    clientBinding: string, legacyPublicKey: string)

  datatype Site =
    | Setup | JournalRead | DestinationRead
    | NewTemporary | NewLink | NewSync
    | FirstSync
    | UpdateTemporary | UpdateRename | UpdateSync
    | CredentialRead | CredentialTemporary | CredentialLink | CredentialSync
    | RemoveRead | RemoveUnlink | RemoveSync

  type Environment = Site -> Outcome

  /** How one POST ends. `mint` is the credential the server issues if the key is new to it. */
  datatype Answer =
    | Unreachable
    | Accepted(mint: string, delivered: bool)
    | Rejected
    | DiedPosting(issued: Option<string>)

  datatype Reply = Unavailable | Refusal | Created(credential: string) | Gone

  /** The credential the server would issue for a key it has not seen. */
  function Issued(a: Answer): Option<string> {
    if a.Accepted? then Some(a.mint) else if a.DiedPosting? then a.issued else None
  }

  predicate ValidAnswer(f: Format, a: Answer) {
    Issued(a).Some? ==> f.accepts(Issued(a).value)
  }

  datatype Load = Absent | Unsafe | Loaded(journal: Journal) | Perished

  /** Nothing but the journal and the chosen destination changes, and no file at a destination is replaced. */
  ghost predicate Untouched(before: Directory<File>, after: Directory<File>, path: string) {
    forall n | n != JOURNAL && (n != path || Live(before, n).Some?) :: Live(after, n) == Live(before, n)
  }

  /** A run that nothing disturbs against a server that delivers its answer. */
  ghost predicate Quiet(env: Environment, a: Answer) {
    (forall site :: env(site).Done?) && a.Accepted? && a.delivered
  }

  /** No key is ever given a second credential. */
  ghost predicate Grown(before: map<string, string>, after: map<string, string>) {
    forall key | key in before :: key in after && after[key] == before[key]
  }

  /** A command, or a power loss that leaves one of the directories it could. */
  datatype Episode = Command(run: Run, key: string, answer: Answer, env: Environment) | Outage(after: Directory<File>)

  class EnrollmentClient {
    const format: Format
    var dir: Directory<File>
    var minted: map<string, string>
    ghost var posted: set<string>
    ghost var rejected: set<string>

    ghost function Abs(): State
      reads this
    {
      State(format, dir, minted, posted, rejected)
    }

    ghost predicate Valid()
      reads this
    {
      Safe(Abs())
    }

    constructor (d: Directory<File>)
      requires d.unsynced == map[] && forall n | n in d.live :: !d.live[n].JournalFile?
      ensures Valid() && dir == d && posted == {} && minted == map[]
      ensures format == Format(ValidStoredCredential, JournalCanPersistCredential, JournalFits)
    {
      format := Format(ValidStoredCredential, JournalCanPersistCredential, JournalFits);
      dir, minted, posted, rejected := d, map[], {}, {};
      new;
      EnrollmentFormatIsSound();
    }

    /** The machine loses power and comes back with one of the directories it could have. */
    method PowerLoss(after: Directory<File>)
      requires Valid() && Survives(dir, after)
      modifies `dir
      ensures Valid() && dir == after
    {
      NarrowingIsSafe(Abs(), after);
      dir := after;
    }

    method SyncDirectory(site: Site, env: Environment) returns (r: Result)
      requires Valid()
      modifies `dir
      ensures Valid() && r == Report(env(site))
      ensures dir == if Applied(env(site)) then Sync(old(dir)) else old(dir)
    {
      if Applied(env(site)) {
        NarrowingIsSafe(Abs(), Sync(dir));
        dir := Sync(dir);
      }
      return Report(env(site));
    }

    method LoadJournal(site: Site, env: Environment) returns (l: Load)
      ensures l.Loaded? ==> Live(dir, JOURNAL) == Some(JournalFile(l.journal))
      ensures l.Absent? ==> Live(dir, JOURNAL) == None
      ensures env(site).Done? && Live(dir, JOURNAL).Some? && Live(dir, JOURNAL).value.JournalFile? ==> l.Loaded?
    {
      if env(site).Died? { return Perished; }
      if JOURNAL !in dir.live { return Absent; }
      if !env(site).Done? || !dir.live[JOURNAL].JournalFile? { return Unsafe; }
      return Loaded(dir.live[JOURNAL].journal);
    }

    /** The destination must be free, or hold exactly the credential the journal has already confirmed. */
    ghost predicate Available(path: string, expected: string)
      reads this
    {
      Live(dir, path) == None || (expected != "" && Live(dir, path) == Some(CredentialFile(expected)))
    }

    method PreflightDestination(path: string, expected: string, env: Environment) returns (r: Result)
      ensures r.Success? ==> Available(path, expected)
      ensures env(DestinationRead).Done? && Available(path, expected) ==> r.Success?
    {
      if env(DestinationRead).Died? { return Death; }
      if path !in dir.live { return Success; }
      return if env(DestinationRead).Done? && expected != ""
             && dir.live[path] == CredentialFile(expected) then Success else Failure;
    }

    method CreateJournal(j: Journal, env: Environment) returns (r: Result)
      requires Valid() && Live(dir, JOURNAL) == None && Live(dir, j.credentialPath) == None
      requires j.credentialPath != JOURNAL && j.credential == ""
      modifies `dir
      ensures Valid() && Untouched(old(dir), dir, JOURNAL)
      ensures r.Success? ==> Live(dir, JOURNAL) == Some(JournalFile(j))
    {
      if !format.reserves(j) { return Failure; }
      if !env(NewTemporary).Done? { return Report(env(NewTemporary)); }
      r := LinkJournal(j, env);
      if !r.Success? { return; }
      r := SyncDirectory(NewSync, env);
    }

    /** The no-replace publication of a complete first journal. */
    method LinkJournal(j: Journal, env: Environment) returns (r: Result)
      requires Valid() && Live(dir, JOURNAL) == None && Live(dir, j.credentialPath) == None
      requires j.credentialPath != JOURNAL && j.credential == "" && format.reserves(j)
      modifies `dir
      ensures Valid() && r == Report(env(NewLink))
      ensures dir == if Applied(env(NewLink)) then Publish(old(dir), JOURNAL, JournalFile(j)) else old(dir)
    {
      if Applied(env(NewLink)) {
        assert Certain(dir, j.credentialPath, None);
        NewJournalIsSafe(Abs(), j);
        dir := Publish(dir, JOURNAL, JournalFile(j));
      }
      return Report(env(NewLink));
    }

    /** Finds the journal of an earlier attempt, or writes the first one. */
    method ObtainJournal(run: Run, key: string, env: Environment) returns (r: Result, j: Journal)
      requires Valid() && run.credentialPath != JOURNAL
      modifies `dir
      ensures Valid() && Untouched(old(dir), dir, JOURNAL)
      ensures r.Success? ==>
                Live(dir, JOURNAL) == Some(JournalFile(j)) && j.credentialPath == run.credentialPath
                && Available(run.credentialPath, j.credential)
      ensures (&& run.recoveryOnly && env(JournalRead).Done? && env(DestinationRead).Done?
               && Live(old(dir), JOURNAL).Some? && Live(old(dir), JOURNAL).value.JournalFile?
               && var found := Live(old(dir), JOURNAL).value.journal;
                  found.credentialPath == run.credentialPath && old(Available(run.credentialPath, found.credential)))
              ==> r.Success? && dir == old(dir)
    {
      j := Journal("", "", "", key, run.credentialPath, run.legacyPublicKey, "");
      var loaded := LoadJournal(JournalRead, env);
      if loaded.Perished? { return Death, j; }
      if loaded.Unsafe? { return Failure, j; }
      if run.recoveryOnly {
        if !loaded.Loaded? { return Failure, j; }
      } else {
        if run.material.None? || run.material.value.clientBinding != run.clientBinding { return Failure, j; }
        var m := run.material.value;
        if loaded.Absent? {
          r := PreflightDestination(run.credentialPath, "", env);
          if !r.Success? { return; }
          j := Journal(m.enrollmentId, m.clientBinding, m.code, key, run.credentialPath, run.legacyPublicKey, "");
          r := CreateJournal(j, env);
          return;
        }
        if loaded.journal.enrollmentId != m.enrollmentId || loaded.journal.clientBinding != m.clientBinding
           || loaded.journal.code != m.code {
          return Failure, j;
        }
      }
      j := loaded.journal;
      if j.credentialPath != run.credentialPath { return Failure, j; }
      r := PreflightDestination(run.credentialPath, j.credential, env);
    }

    /** The server mints at most once per key, keeps what it minted, and remembers a rejection. */
    method Serve(key: string, mint: Option<string>, reject: bool)
      requires Valid() && JournalCertainly(Abs(), key)
      requires mint.Some? ==> format.accepts(mint.value)
      modifies `minted, `posted, `rejected
      ensures Valid() && Abs() == Posted(old(Abs()), key, mint, reject)
    {
      PostIsSafe(Abs(), key, mint, reject);
      posted := posted + {key};
      if reject { rejected := rejected + {key}; }
      if mint.Some? && key !in minted { minted := minted[key := mint.value]; }
    }

    /** Sends the journal's key; only ever called while every crash would leave that journal. */
    method PostRedemption(j: Journal, a: Answer) returns (reply: Reply)
      requires Valid() && ValidAnswer(format, a) && Certain(dir, JOURNAL, Some(JournalFile(j)))
      modifies `minted, `posted, `rejected
      ensures Valid() && posted == old(posted) + {j.idempotencyKey}
      ensures reply.Created? ==> j.idempotencyKey in minted && reply.credential == minted[j.idempotencyKey]
      ensures reply.Refusal? ==> j.idempotencyKey in rejected
      ensures a.Accepted? && a.delivered ==> reply.Created?
      ensures Grown(old(minted), minted)
    {
      var key := j.idempotencyKey;
      Serve(key, Issued(a), a.Rejected?);
      match a
      case Unreachable => return Unavailable;
      case Rejected => return Refusal;
      case DiedPosting(_) => return Gone;
      case Accepted(_, delivered) => return if delivered then Created(minted[key]) else Unavailable;
    }

    /** Stores the confirmed credential in the journal, durably. */
    method FillJournal(j: Journal, credential: string, env: Environment) returns (r: Result)
      requires Valid() && Certain(dir, JOURNAL, Some(JournalFile(j)))
      requires j.idempotencyKey in minted && credential == minted[j.idempotencyKey]
      requires (j.credential == "" || j.credential == credential)
      modifies `dir
      ensures Valid() && Untouched(old(dir), dir, JOURNAL)
      ensures r.Success? ==>
                dir.unsynced == map[] && Live(dir, JOURNAL) == Some(JournalFile(j.(credential := credential)))
      ensures env(UpdateTemporary).Done? && env(UpdateRename).Done? && env(UpdateSync).Done? ==> r.Success?
    {
      var filled := j.(credential := credential);
      assert Some(JournalFile(j)) in Possible(dir, JOURNAL) && Usable(Abs(), j);
      assert RoomFor(format, j, credential);
      if !format.fits(filled) { return Failure; }
      if !env(UpdateTemporary).Done? { return Report(env(UpdateTemporary)); }
      if Applied(env(UpdateRename)) {
        FilledJournalIsSafe(Abs(), j);
        dir := Publish(dir, JOURNAL, JournalFile(filled));
      }
      if !env(UpdateRename).Done? { return Report(env(UpdateRename)); }
      r := SyncDirectory(UpdateSync, env);
    }

    /** Publishes the credential that the journal certainly holds. Finding it already there needs no sync of its
        own: the caller's directory sync has made every entry it can see durable. */
    method WriteCredential(j: Journal, env: Environment) returns (r: Result)
      requires Valid() && dir.unsynced == map[] && Live(dir, JOURNAL) == Some(JournalFile(j)) && j.credential != ""
      modifies `dir
      ensures Valid() && Untouched(old(dir), dir, j.credentialPath) && Live(dir, JOURNAL) == old(Live(dir, JOURNAL))
      ensures r.Success? ==> CredentialCertainly(Abs(), j.idempotencyKey, j.credentialPath)
      ensures (&& env(CredentialRead).Done? && env(CredentialTemporary).Done? && env(CredentialLink).Done?
               && env(CredentialSync).Done?
               && old(Available(j.credentialPath, j.credential))) ==> r.Success?
    {
      assert Some(JournalFile(j)) in Possible(dir, JOURNAL) && Usable(Abs(), j);
      if j.credentialPath in dir.live {
        if !env(CredentialRead).Done? { return Report(env(CredentialRead)); }
        return if dir.live[j.credentialPath] == CredentialFile(j.credential) then Success else Failure;
      }
      if !env(CredentialTemporary).Done? { return Report(env(CredentialTemporary)); }
      if Applied(env(CredentialLink)) {
        CredentialLinkIsSafe(Abs(), j);
        dir := Publish(dir, j.credentialPath, CredentialFile(j.credential));
      }
      if !env(CredentialLink).Done? { return Report(env(CredentialLink)); }
      r := SyncDirectory(CredentialSync, env);
    }

    /** Removes the journal only if it is still the given one, and only for a settled key. */
    method RemoveJournalIfCurrent(j: Journal, env: Environment) returns (r: Result)
      requires Valid() && Settled(Abs(), j.idempotencyKey)
      modifies `dir
      ensures Valid() && Untouched(old(dir), dir, JOURNAL)
      ensures Live(dir, JOURNAL) != old(Live(dir, JOURNAL)) ==>
                old(Live(dir, JOURNAL)) == Some(JournalFile(j)) && Live(dir, JOURNAL) == None
      ensures forall path | old(CredentialCertainly(Abs(), j.idempotencyKey, path)) ::
                CredentialCertainly(Abs(), j.idempotencyKey, path)
      ensures (&& env(RemoveRead).Done? && env(RemoveUnlink).Done? && !env(RemoveSync).Died?
               && old(Live(dir, JOURNAL)) == Some(JournalFile(j))) ==>
                r.Success? && Live(dir, JOURNAL) == None
    {
      var loaded := LoadJournal(RemoveRead, env);
      match loaded
      case Perished => return Death;
      case Absent => return Success;
      case Unsafe => return Failure;
      case Loaded(current) =>
        if current != j { return Success; }
        if Applied(env(RemoveUnlink)) {
          JournalRemovalIsSafe(Abs(), j);
          dir := Unlink(dir, JOURNAL);
        }
        if !env(RemoveUnlink).Done? { return Report(env(RemoveUnlink)); }
        r := SyncDirectory(RemoveSync, env);
        r := if r.Death? then Death else Success; // a failed sync of the clean-up is not a failure
    }

    /** `recover` is asked to finish the journal that is there, with its own destination and identity. */
    ghost predicate Recoverable(run: Run)
      reads this
    {
      && run.recoveryOnly && run.credentialPath != LOCK
      && JOURNAL in dir.live && dir.live[JOURNAL].JournalFile?
      && var j := dir.live[JOURNAL].journal;
         j.credentialPath == run.credentialPath && j.clientBinding == run.clientBinding
         && j.legacyPublicKey == run.legacyPublicKey
    }

    /** One run of `redeem` or `recover`. From every state, however it came about, an undisturbed `recover`
        leaves exactly the minted credential and no journal. */
    method RunRedeem(run: Run, key: string, a: Answer, env: Environment) returns (r: Result)
      requires Valid() && ValidAnswer(format, a)
      modifies this
      ensures Valid() && Untouched(old(dir), dir, run.credentialPath) && Grown(old(minted), minted)
      ensures r.Success? ==> Delivered(run.credentialPath)
      ensures Quiet(env, a) && old(Recoverable(run)) ==>
                r.Success? && Live(dir, JOURNAL) == None
                && CredentialCertainly(Abs(), old(dir.live[JOURNAL].journal.idempotencyKey), run.credentialPath)
    {
      LiveJournalIsUsable();
      if run.credentialPath == JOURNAL || run.credentialPath == LOCK { return Failure; }
      if !env(Setup).Done? { return Report(env(Setup)); }
      var j;
      r, j := ObtainJournal(run, key, env);
      if !r.Success? { return; }
      if j.clientBinding != run.clientBinding || j.legacyPublicKey != run.legacyPublicKey { return Failure; }
      r := Exchange(j, a, env);
    }

    lemma LiveJournalIsUsable()
      requires Valid()
      ensures JOURNAL in dir.live && dir.live[JOURNAL].JournalFile? ==>
                var j := dir.live[JOURNAL].journal;
                Usable(Abs(), j) && Available(j.credentialPath, j.credential)
    {
      if JOURNAL in dir.live && dir.live[JOURNAL].JournalFile? {
        var j := dir.live[JOURNAL].journal;
        assert Live(dir, JOURNAL) in Possible(dir, JOURNAL) && Usable(Abs(), j);
        assert Live(dir, j.credentialPath) in Possible(dir, j.credentialPath);
      }
    }

    /** Makes the journal durable, posts its key, and acts on the answer. */
    method Exchange(j: Journal, a: Answer, env: Environment) returns (r: Result)
      requires Valid() && ValidAnswer(format, a) && Live(dir, JOURNAL) == Some(JournalFile(j))
      modifies this
      ensures Valid() && Untouched(old(dir), dir, j.credentialPath) && Grown(old(minted), minted)
      ensures r.Success? ==>
                j.idempotencyKey in posted && CredentialCertainly(Abs(), j.idempotencyKey, j.credentialPath)
      ensures Quiet(env, a) ==> r.Success? && Live(dir, JOURNAL) == None
    {
      r := SyncDirectory(FirstSync, env);
      if !r.Success? { return; }
      LiveJournalIsUsable();
      var reply := PostRedemption(j, a);
      match reply
      case Gone => return Death;
      case Unavailable => return Failure;
      case Refusal =>
        r := RemoveJournalIfCurrent(j, env);
        r := if r.Death? then Death else Failure;
      case Created(credential) =>
        if j.credential != "" && j.credential != credential { return Failure; }
        r := Deliver(j, credential, env);
    }

    /** The credential file at `path` is durably the one minted for a posted key. */
    ghost predicate Delivered(path: string)
      reads this
    {
      exists key :: key in posted && CredentialCertainly(Abs(), key, path)
    }

    /** Journal first, then the credential, then the clean-up. */
    method Deliver(j: Journal, credential: string, env: Environment) returns (r: Result)
      requires Valid() && Certain(dir, JOURNAL, Some(JournalFile(j)))
      requires j.idempotencyKey in minted && credential == minted[j.idempotencyKey]
      requires (j.credential == "" || j.credential == credential)
      modifies `dir
      ensures Valid() && Untouched(old(dir), dir, j.credentialPath)
      ensures r.Success? ==> CredentialCertainly(Abs(), j.idempotencyKey, j.credentialPath)
      ensures (forall site :: env(site).Done?) && old(Available(j.credentialPath, j.credential)) ==>
                r.Success? && Live(dir, JOURNAL) == None
    {
      r := FillJournal(j, credential, env);
      if !r.Success? { return; }
      var filled := j.(credential := credential);
      r := WriteCredential(filled, env);
      if !r.Success? { return; }
      r := RemoveJournalIfCurrent(filled, env);
    }

    /**
     Any history of commands and power losses: no key is given two credentials, and of every key ever
     posted the journal survives, or its credential is on disk, or the server has rejected it; at most
     one key is still waiting.
     */
    method RunEpisodes(episodes: seq<Episode>)
      requires Valid() && forall e | e in episodes && e.Command? :: ValidAnswer(format, e.answer)
      modifies this
      ensures Valid() && Grown(old(minted), minted)
      ensures forall key | key in posted :: Kept(Abs(), key)
      ensures forall k1, k2 | k1 in posted && k2 in posted && !Settled(Abs(), k1) && !Settled(Abs(), k2) :: k1 == k2
    {
      for i := 0 to |episodes|
        invariant Valid() && Grown(old(minted), minted)
      {
        match episodes[i]
        case Command(run, key, answer, env) =>
          assert episodes[i] in episodes;
          var r := RunRedeem(run, key, answer, env);
        case Outage(after) =>
          if Survives(dir, after) { PowerLoss(after); }
      }
      forall k1, k2 | k1 in posted && k2 in posted && !Settled(Abs(), k1) && !Settled(Abs(), k2) ensures k1 == k2 {
        OneKeyInFlight(Abs(), k1, k2);
      }
    }
  }
}
