/**
 Creating a private directory and its missing ancestors so that each new entry is durable before anything is
 made beneath it. Other processes may run the same command at the same time, and any of them may die anywhere.
 Entry `i` is the name of the `i`-th path component in its parent; the root itself always exists.
 */
module PrivatePath {
  import opened Faults

  /** An entry that is there may not be durable yet, and may be the work of this command. */
  datatype Entry = Missing | There(durable: bool, ours: bool)

  type Path = seq<Entry>

  /** Two neighbours: nothing is beneath a missing entry, and what this command makes, it makes beneath a
      durable entry and with nothing of others beneath it. */
  predicate Link(parent: Entry, child: Entry) {
    && (parent.Missing? ==> child.Missing?)
    && (child.There? && child.ours ==> parent.durable)
    && (child.There? && parent.ours ==> child.ours)
  }

  predicate Sound(path: Path) {
    forall i | 0 <= i < |path| - 1 :: Link(path[i], path[i + 1])
  }

  /** Any state in which a command may find the path: whatever others left, as long as it is a path. */
  predicate Foreign(path: Path) {
    && (forall i | 0 <= i < |path| && path[i].There? :: !path[i].ours)
    && (forall i | 0 <= i < |path| - 1 && path[i].Missing? :: path[i + 1].Missing?)
  }

  /** What any process following the protocol may do: make entries, and make entries durable. */
  predicate Progress(before: Path, after: Path) {
    && |before| == |after|
    && forall i | 0 <= i < |before| ::
         if before[i].There? then
           after[i].There? && after[i].ours == before[i].ours && (before[i].durable ==> after[i].durable)
         else
           after[i].There? ==> after[i].ours
  }

  /** Beneath an entry this command made but has not yet synced there is nothing. */
  lemma {:induction false} NothingBeneath(path: Path, i: nat, j: nat)
    requires Sound(path) && i < j < |path| && path[i].There? && path[i].ours && !path[i].durable
    ensures path[j].Missing?
  {
    if j == i + 1 {
      assert Link(path[i], path[j]);
    } else {
      NothingBeneath(path, i, j - 1);
      assert Link(path[j - 1], path[j]);
    }
  }

  lemma {:induction false} NothingBeneathMissing(path: Path, i: nat, j: nat)
    requires Sound(path) && i <= j < |path| && path[i].Missing?
    ensures path[j].Missing?
  {
    if i < j {
      NothingBeneathMissing(path, i, j - 1);
      assert Link(path[j - 1], path[j]);
    }
  }

  lemma {:induction false} EverythingAbove(path: Path, i: nat, j: nat)
    requires Sound(path) && i <= j < |path| && path[j].There?
    ensures path[i].There?
  {
    if path[i].Missing? { NothingBeneathMissing(path, i, j); }
  }

  /** What a power loss leaves: one entry that was not durable goes, with everything beneath it, or none does. */
  function Survivors(path: Path, lost: nat): Path {
    seq(|path|, i requires 0 <= i < |path| => if i < lost && path[i].There? then path[i].(durable := true) else Missing)
  }

  predicate MayLose(path: Path, lost: nat) {
    lost >= |path| || path[lost].Missing? || !path[lost].durable
  }

  lemma PowerLossKeepsSound(path: Path, lost: nat)
    requires Sound(path)
    ensures Sound(Survivors(path, lost))
  {
    forall i | 0 <= i < |path| - 1 ensures Link(Survivors(path, lost)[i], Survivors(path, lost)[i + 1]) {
      assert Link(path[i], path[i + 1]);
    }
  }

  datatype Site = Inspect(entry: nat) | SyncParent(entry: nat) | Make(entry: nat) | Check(entry: nat)

  type Environment = Site -> Outcome

  /** An attempt of the command, or a power loss. */
  datatype Episode = Attempt(env: Environment) | Outage(lost: nat)

  predicate AllDurable(path: Path) {
    forall i | 0 <= i < |path| :: path[i].There? && path[i].durable
  }

  /** Everything above the deepest entry that is there is durable. */
  predicate DurableAbove(path: Path) {
    forall i | 0 <= i < |path| - 1 && path[i + 1].There? :: path[i].There? && path[i].durable
  }

  class DirectoryChain {
    /** No other process works on the path. */
    const alone: bool
    var path: Path

    constructor (existing: Path, alone: bool)
      requires Foreign(existing)
      ensures path == existing && Sound(path) && this.alone == alone
    {
      path, this.alone := existing, alone;
    }

    /** Other processes run between any two steps of this one. */
    method Interference()
      requires Sound(path)
      modifies this
      ensures Sound(path) && Progress(old(path), path)
      ensures alone ==> path == old(path)
    {
      var after: Path := *;
      if !alone && Sound(after) && Progress(path, after) { path := after; }
    }

    /** Syncing the parent directory makes the entry durable if it exists. */
    method SyncParentOf(i: nat, env: Environment) returns (r: Result)
      requires Sound(path) && i < |path|
      modifies this
      ensures Sound(path) && Progress(old(path), path)
      ensures r == Report(env(SyncParent(i)))
      ensures r.Success? && old(path)[i].There? ==> path[i].There? && path[i].durable
      ensures alone ==> forall k | 0 <= k < |path| && k != i :: path[k] == old(path)[k]
    {
      if Applied(env(SyncParent(i))) && path[i].There? {
        SyncIsSound(path, i);
        path := path[i := path[i].(durable := true)];
      }
      Interference();
      return Report(env(SyncParent(i)));
    }

    /** `mkdir`; an entry another process made first is accepted, and synced like our own. */
    method MakeAndSync(i: nat, env: Environment) returns (r: Result)
      requires Sound(path) && i < |path| && (i == 0 || (path[i - 1].There? && path[i - 1].durable))
      modifies this
      ensures Sound(path) && Progress(old(path), path)
      ensures r.Success? ==> path[i].There? && path[i].durable
      ensures alone ==> forall k | 0 <= k < |path| && k != i :: path[k] == old(path)[k]
      ensures env(Make(i)).Done? && env(SyncParent(i)).Done? && env(Check(i)).Done? ==> r.Success?
    {
      if path[i].Missing? {
        if Applied(env(Make(i))) {
          MakeIsSound(path, i);
          path := path[i := There(false, true)];
        }
        if !env(Make(i)).Done? { return Report(env(Make(i))); }
      }
      Interference();
      r := SyncParentOf(i, env);
      if !r.Success? { return; }
      return Report(env(Check(i)));
    }

    /**
     Success makes the directory durable, with every ancestor that was not there when it began and the one
     above those. The whole path is durable then if everything above the deepest entry already there was,
     and for a command that runs alone only then: it never syncs further up.
     */
    method EnsurePrivateDir(env: Environment) returns (r: Result)
      requires Sound(path)
      modifies this
      ensures Sound(path) && Progress(old(path), path)
      ensures r.Success? && path != [] ==> path[|path| - 1].There? && path[|path| - 1].durable
      ensures r.Success? && DurableAbove(old(path)) ==> AllDurable(path)
      ensures r.Success? && alone && AllDurable(path) ==> DurableAbove(old(path))
      ensures (forall site :: env(site).Done?) ==> r.Success?
    {
      var n := |path|;
      if n == 0 { return Success; }
      Interference();
      if !env(Inspect(n - 1)).Done? { return Report(env(Inspect(n - 1))); }
      if path[n - 1].There? {
        if !env(Check(n - 1)).Done? { return Report(env(Check(n - 1))); }
        r := SyncParentOf(n - 1, env);
      } else {
        var missing;
        r, missing := FindMissing(n, env);
        if !r.Success? { return; }
        r := MakeMissing(n, missing, env);
      }
      if r.Success? && DurableAbove(old(path)) { DurableThroughout(old(path), path); }
      assert alone ==> Untouched(old(path), path);
    }

    /** Walks up to the first ancestor that exists and makes that ancestor's own entry durable before use. */
    method FindMissing(n: nat, env: Environment) returns (r: Result, missing: seq<nat>)
      requires Sound(path) && 0 < n == |path| && path[n - 1].Missing?
      modifies this
      ensures Sound(path) && Progress(old(path), path)
      ensures r.Success? ==> 0 < |missing| <= n
      ensures r.Success? && |missing| < n ==> path[n - 1 - |missing|].There? && path[n - 1 - |missing|].durable
      ensures r.Success? ==> forall i | 0 <= i < |missing| :: missing[i] == n - 1 - i
      ensures alone ==> Untouched(old(path), path)
      ensures alone && r.Success? ==> forall k | n - |missing| <= k < n :: path[k].Missing?
      ensures (forall site :: env(site).Done?) ==> r.Success?
    {
      missing := [n - 1];
      while |missing| < n
        invariant 0 < |missing| <= n == |path|
        invariant forall i | 0 <= i < |missing| :: missing[i] == n - 1 - i
        invariant Sound(path) && Progress(old(path), path)
        invariant alone ==> path == old(path) && forall k | n - |missing| <= k < n :: path[k].Missing?
      {
        var parent := n - 1 - |missing|;
        Interference();
        if !env(Inspect(parent)).Done? { return Report(env(Inspect(parent))), missing; }
        if path[parent].There? {
          assert alone ==> old(path)[parent + 1].Missing?;
          r := SyncParentOf(parent, env);
          return;
        }
        missing := missing + [parent];
      }
      return Success, missing;
    }

    /** Makes what is missing from the top down, one durable entry beneath another. */
    method MakeMissing(n: nat, missing: seq<nat>, env: Environment) returns (r: Result)
      requires Sound(path) && 0 < |missing| <= n == |path|
      requires forall i | 0 <= i < |missing| :: missing[i] == n - 1 - i
      requires |missing| == n || (path[n - 1 - |missing|].There? && path[n - 1 - |missing|].durable)
      modifies this
      ensures Sound(path) && Progress(old(path), path)
      ensures r.Success? ==> path[n - 1].There? && path[n - 1].durable
      ensures alone ==> forall k | 0 <= k < n - |missing| :: path[k] == old(path)[k]
      ensures (forall site :: env(site).Done?) ==> r.Success?
    {
      r := Success;
      var index := |missing| - 1;
      while index >= 0
        invariant -1 <= index < |missing| <= n == |path|
        invariant Sound(path) && Progress(old(path), path)
        invariant r.Success? && (n - 1 - index == 0 || (path[n - 2 - index].There? && path[n - 2 - index].durable))
        invariant alone ==> forall k | 0 <= k < n - |missing| || n - 1 - index <= k < n :: path[k] == old(path)[k]
      {
        r := MakeAndSync(missing[index], env);
        if !r.Success? { return; }
        index := index - 1;
      }
    }

    /**
     Any history of attempts, however they end, and power losses, from any path others left: whatever this
     command has made lies beneath a durable entry, and only the deepest of it may not be durable itself.
     */
    method RunHistory(episodes: seq<Episode>)
      requires Sound(path)
      modifies this
      ensures Sound(path) && |path| == |old(path)|
      ensures forall i | 0 < i < |path| && path[i].There? && path[i].ours :: path[i - 1].There? && path[i - 1].durable
      ensures forall i, j | 0 <= i < j < |path| && path[i].There? && path[i].ours && !path[i].durable ::
                path[j].Missing?
    {
      for k := 0 to |episodes|
        invariant Sound(path) && |path| == |old(path)|
      {
        match episodes[k]
        case Attempt(env) =>
          var r := EnsurePrivateDir(env);
        case Outage(lost) =>
          if MayLose(path, lost) {
            PowerLossKeepsSound(path, lost);
            path := Survivors(path, lost);
          }
      }
      forall i | 0 < i < |path| && path[i].There? && path[i].ours ensures path[i - 1].There? && path[i - 1].durable {
        assert Link(path[i - 1], path[i]);
      }
      forall i, j | 0 <= i < j < |path| && path[i].There? && path[i].ours && !path[i].durable ensures path[j].Missing? {
        NothingBeneath(path, i, j);
      }
    }
  }

  /** Above entries that were there to begin with, nothing changes. */
  predicate Untouched(before: Path, after: Path) {
    |before| == |after| && forall i | 0 <= i < |before| - 1 && before[i + 1].There? :: after[i] == before[i]
  }

  /** What was made since lies beneath durable entries, so the whole path is durable if the rest was. */
  lemma DurableThroughout(before: Path, after: Path)
    requires Sound(after) && Progress(before, after) && DurableAbove(before)
    requires after != [] ==> after[|after| - 1].There? && after[|after| - 1].durable
    ensures AllDurable(after)
  {
    forall i | 0 <= i < |after| ensures after[i].There? && after[i].durable {
      EverythingAbove(after, i, |after| - 1);
      if i + 1 < |after| {
        EverythingAbove(after, i + 1, |after| - 1);
        assert Link(after[i], after[i + 1]);
      }
    }
  }

  lemma SyncIsSound(path: Path, i: nat)
    requires Sound(path) && i < |path| && path[i].There?
    ensures Sound(path[i := path[i].(durable := true)])
  {
    var after := path[i := path[i].(durable := true)];
    forall k | 0 <= k < |path| - 1 ensures Link(after[k], after[k + 1]) {
      assert Link(path[k], path[k + 1]);
    }
  }

  lemma MakeIsSound(path: Path, i: nat)
    requires Sound(path) && i < |path| && path[i].Missing? && (i == 0 || (path[i - 1].There? && path[i - 1].durable))
    ensures Sound(path[i := There(false, true)])
  {
    var after := path[i := There(false, true)];
    forall k | 0 <= k < |path| - 1 ensures Link(after[k], after[k + 1]) {
      assert Link(path[k], path[k + 1]);
    }
  }

  /**
   Success alone does not make the whole path durable: of two entries that are there and not durable, the
   command syncs only the deeper one.
   */
  method LeaveAncestorVolatile() returns (chain: DirectoryChain, r: Result)
    ensures r.Success? && chain.path != [] && !AllDurable(chain.path)
  {
    var existing := [There(false, false), There(false, false)];
    chain := new DirectoryChain(existing, true);
    r := chain.EnsurePrivateDir((_: Site) => Done);
    assert existing[0 + 1].There? && !existing[0].durable;
  }
}
