/**
 Folding per-file results of a fleet apply into one status. The source walks Go maps, whose iteration
 order is arbitrary; each loop here picks its next entry arbitrarily too.
 */
module FleetTrailers {
  import opened Choice
  import opened Options

  datatype Trailer = Trailer(state: string, drift: bool, collision: bool)

  type Trailers = map<string, Trailer>

  const BLANK := Trailer("", false, false)

  /** One entry on top of what earlier parts said about the same path. */
  function Fold(existing: Trailer, trailer: Trailer): Trailer {
    var state := if trailer.collision then "collision" else existing.state;
    Trailer(
      if state == "" then trailer.state else state,
      existing.drift || trailer.drift,
      existing.collision || trailer.collision)
  }

  /** What the parts, taken in order, say about one path. */
  function MergedAt(parts: seq<Trailers>, path: string): Option<Trailer> {
    if parts == [] then None
    else
      var n := |parts| - 1;
      var before := MergedAt(parts[..n], path);
      if path !in parts[n] then before
      else Some(Fold(if before.None? then BLANK else before.value, parts[n][path]))
  }

  ghost predicate IsMerge(out: Trailers, parts: seq<Trailers>) {
    forall path ::
      (path in out <==> MergedAt(parts, path).Some?) && (path in out ==> MergedAt(parts, path) == Some(out[path]))
  }

  method MergeTrailerResults(parts: seq<Trailers>) returns (out: Trailers)
    ensures IsMerge(out, parts)
  {
    out := map[];
    for k := 0 to |parts|
      invariant IsMerge(out, parts[..k])
    {
      assert parts[..k + 1][..k] == parts[..k];
      out := MergePart(out, parts[k]);
    }
    assert parts[..|parts|] == parts;
  }

  /** The inner loop: each path of the part is folded once, whenever its turn comes. */
  method MergePart(before: Trailers, part: Trailers) returns (out: Trailers)
    ensures out.Keys == before.Keys + part.Keys
    ensures forall path | path in part :: out[path] == Fold(if path in before then before[path] else BLANK, part[path])
    ensures forall path | path in before && path !in part :: out[path] == before[path]
  {
    out := before;
    var rest := part.Keys;
    while rest != {}
      invariant rest <= part.Keys
      invariant out.Keys == before.Keys + (part.Keys - rest)
      invariant forall path | path in part && path !in rest ::
                  out[path] == Fold(if path in before then before[path] else BLANK, part[path])
      invariant forall path | path in before && (path !in part || path in rest) :: out[path] == before[path]
      decreases rest
    {
      var path := Pick(rest);
      var trailer := part[path];
      var existing := if path in out then out[path] else BLANK;
      if trailer.collision { existing := existing.(collision := true, state := "collision"); }
      if trailer.drift { existing := existing.(drift := true); }
      if existing.state == "" { existing := existing.(state := trailer.state); }
      out := out[path := existing];
      rest := rest - {path};
    }
  }

  ghost predicate MentionedIn(parts: seq<Trailers>, path: string) {
    exists i :: 0 <= i < |parts| && path in parts[i]
  }

  ghost predicate Collides(parts: seq<Trailers>, path: string) {
    exists i :: 0 <= i < |parts| && path in parts[i] && parts[i][path].collision
  }

  ghost predicate Drifts(parts: seq<Trailers>, path: string) {
    exists i :: 0 <= i < |parts| && path in parts[i] && parts[i][path].drift
  }

  /** The first part with anything to say about the state of a path. */
  function FirstState(parts: seq<Trailers>, path: string): string {
    if parts == [] then ""
    else if path in parts[0] && parts[0][path].state != "" then parts[0][path].state
    else FirstState(parts[1..], path)
  }

  lemma {:induction false} FirstStateAppend(parts: seq<Trailers>, part: Trailers, path: string)
    ensures FirstState(parts + [part], path) ==
            if FirstState(parts, path) != "" then FirstState(parts, path)
            else if path in part then part[path].state
            else ""
  {
    if parts != [] {
      assert (parts + [part])[1..] == parts[1..] + [part];
      FirstStateAppend(parts[1..], part, path);
    }
  }

  /**
   What a merged entry means: it collides or drifts exactly when some part says so, and its state is
   "collision" then, and otherwise the first state given.
   */
  lemma {:induction false} MergedMeans(parts: seq<Trailers>, path: string)
    ensures MergedAt(parts, path).Some? <==> MentionedIn(parts, path)
    ensures MergedAt(parts, path).None? ==> FirstState(parts, path) == "" && !Collides(parts, path)
    ensures MergedAt(parts, path).Some? ==>
              var t := MergedAt(parts, path).value;
              && (t.collision <==> Collides(parts, path))
              && (t.drift <==> Drifts(parts, path))
              && t.state == if Collides(parts, path) then "collision" else FirstState(parts, path)
  {
    if parts != [] {
      var n := |parts| - 1;
      var front, part := parts[..n], parts[n];
      MergedMeans(front, path);
      FirstStateAppend(front, part, path);
      assert parts == front + [part];
      assert Collides(parts, path) <==> Collides(front, path) || (path in part && part[path].collision) by {
        if i :| 0 <= i < n && path in front[i] && front[i][path].collision { assert parts[i] == front[i]; }
      }
      assert Drifts(parts, path) <==> Drifts(front, path) || (path in part && part[path].drift) by {
        if i :| 0 <= i < n && path in front[i] && front[i][path].drift { assert parts[i] == front[i]; }
      }
      assert MentionedIn(parts, path) <==> MentionedIn(front, path) || path in part by {
        if i :| 0 <= i < n && path in front[i] { assert parts[i] == front[i]; }
      }
    }
  }

  predicate AnyCollision(m: Trailers) {
    exists path :: path in m && m[path].collision
  }

  predicate AnyTrouble(m: Trailers) {
    exists path :: path in m && (m[path].collision || m[path].drift)
  }

  method TrailerState(trailers: Trailers) returns (state: string)
    ensures state == if trailers == map[] then "missing" else if AnyCollision(trailers) then "collision" else "present"
  {
    if |trailers| == 0 { return "missing"; }
    var rest := trailers.Keys;
    while rest != {}
      invariant rest <= trailers.Keys
      invariant forall path | path in trailers && path !in rest :: !trailers[path].collision
      decreases rest
    {
      var path := Pick(rest);
      if trailers[path].collision { return "collision"; }
      rest := rest - {path};
    }
    return "present";
  }

  method ReconcileState(trailers: Trailers) returns (state: string)
    ensures state == if AnyTrouble(trailers) then "drifted" else "current"
  {
    var rest := trailers.Keys;
    while rest != {}
      invariant rest <= trailers.Keys
      invariant forall path | path in trailers && path !in rest :: !trailers[path].collision && !trailers[path].drift
      decreases rest
    {
      var path := Pick(rest);
      if trailers[path].collision || trailers[path].drift { return "drifted"; }
      rest := rest - {path};
    }
    return "current";
  }

  /** Merging hides no trouble and invents none, whatever the order of the parts. */
  lemma MergeKeepsTrouble(out: Trailers, parts: seq<Trailers>)
    requires IsMerge(out, parts)
    ensures AnyCollision(out) <==> exists i :: 0 <= i < |parts| && AnyCollision(parts[i])
    ensures AnyTrouble(out) <==> exists i :: 0 <= i < |parts| && AnyTrouble(parts[i])
    ensures out == map[] <==> forall i | 0 <= i < |parts| :: parts[i] == map[]
  {
    forall i, path | 0 <= i < |parts| && path in parts[i]
      ensures path in out
      ensures parts[i][path].collision ==> out[path].collision
      ensures parts[i][path].drift ==> out[path].drift
    {
      MergedMeans(parts, path);
    }
    forall path | path in out
      ensures exists i :: 0 <= i < |parts| && path in parts[i]
      ensures out[path].collision ==> Collides(parts, path)
      ensures out[path].drift ==> Drifts(parts, path)
    {
      MergedMeans(parts, path);
    }
    if i :| 0 <= i < |parts| && AnyCollision(parts[i]) {
      var path :| path in parts[i] && parts[i][path].collision;
      assert path in out;
    }
    if i :| 0 <= i < |parts| && AnyTrouble(parts[i]) {
      var path :| path in parts[i] && (parts[i][path].collision || parts[i][path].drift);
      assert path in out;
    }
  }

  /** Alias results by rank: unsupported over collision over linked over disabled. */
  function AliasRank(state: string): nat {
    if state == "unsupported" then 3 else if state == "collision" then 2 else if state == "linked" then 1 else 0
  }

  /** The highest-ranking result decides, in whatever order the results are seen. */
  method AliasState(enabled: bool, results: map<string, string>) returns (state: string)
    ensures !enabled || results == map[] ==> state == "disabled"
    ensures state in {"unsupported", "collision", "linked", "disabled"}
    ensures enabled ==> forall name | name in results :: AliasRank(results[name]) <= AliasRank(state)
    ensures AliasRank(state) > 0 ==> enabled && exists name :: name in results && results[name] == state
  {
    if !enabled { return "disabled"; }
    state := "disabled";
    var rest := results.Keys;
    while rest != {}
      invariant rest <= results.Keys
      invariant state in {"collision", "linked", "disabled"}
      invariant forall name | name in results && name !in rest :: AliasRank(results[name]) <= AliasRank(state)
      invariant AliasRank(state) > 0 ==> exists name :: name in results && results[name] == state
      decreases rest
    {
      var name := Pick(rest);
      var result := results[name];
      rest := rest - {name};
      if result == "unsupported" { return "unsupported"; }
      if result == "collision" { state := "collision"; }
      if result == "linked" && state != "collision" { state := "linked"; }
    }
  }
}
