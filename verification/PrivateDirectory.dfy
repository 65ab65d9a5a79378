/**
 A directory as a crash sees it. `live` is what running processes read. For a name whose entry was changed
 since the last directory sync, `unsynced` holds every state a power loss may leave; entries persist
 independently of one another, which is the weakest guarantee a filesystem gives.
 */
module PrivateDirectory {
  import opened Options

  datatype Directory<!F(==)> = Directory(live: map<string, F>, unsynced: map<string, set<Option<F>>>)

  function Live<F(==)>(d: Directory<F>, n: string): Option<F> {
    if n in d.live then Some(d.live[n]) else None
  }

  /** The states in which a power loss may leave the entry. */
  function Possible<F(==)>(d: Directory<F>, n: string): set<Option<F>> {
    if n in d.unsynced then d.unsynced[n] else {Live(d, n)}
  }

  ghost predicate Coherent<F>(d: Directory<F>) {
    forall n :: Live(d, n) in Possible(d, n)
  }

  /** After a power loss right now, the entry is certainly `o`. */
  ghost predicate Certain<F>(d: Directory<F>, n: string, o: Option<F>) {
    Possible(d, n) == {o}
  }

  /** Hard link or rename onto `n`. */
  function Publish<F(==)>(d: Directory<F>, n: string, f: F): (d': Directory<F>)
    ensures Live(d', n) == Some(f) && Possible(d', n) == Possible(d, n) + {Some(f)}
    ensures forall m | m != n :: Live(d', m) == Live(d, m) && Possible(d', m) == Possible(d, m)
    ensures Coherent(d) ==> Coherent(d')
  {
    Directory(d.live[n := f], d.unsynced[n := Possible(d, n) + {Some(f)}])
  }

  function Unlink<F(==)>(d: Directory<F>, n: string): (d': Directory<F>)
    ensures Live(d', n) == None && Possible(d', n) == Possible(d, n) + {None}
    ensures forall m | m != n :: Live(d', m) == Live(d, m) && Possible(d', m) == Possible(d, m)
    ensures Coherent(d) ==> Coherent(d')
  {
    Directory(d.live - {n}, d.unsynced[n := Possible(d, n) + {None}])
  }

  function Sync<F(==)>(d: Directory<F>): (d': Directory<F>)
    ensures forall m :: Live(d', m) == Live(d, m) && Certain(d', m, Live(d, m))
    ensures Coherent(d')
  {
    Directory(d.live, map[])
  }

  /** `after` is a directory a machine may find when it comes back from a power loss. */
  predicate Survives<F(==)>(d: Directory<F>, after: Directory<F>)
    ensures Survives(d, after) <==> after.unsynced == map[] && forall n :: Live(after, n) in Possible(d, n)
  {
    && after.unsynced == map[]
    && forall n | n in d.live.Keys + d.unsynced.Keys + after.live.Keys :: Live(after, n) in Possible(d, n)
  }
}
