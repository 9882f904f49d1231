/**
 * `activate` and `deactivate`: moving a skill directory between the active
 * skills root and the deactivated skills root, refusing to overwrite.
 */
module Lifecycle {
  import opened Wrappers
  import opened Fs

  /** The two roots. The deactivated root is created on first use, so it may not exist yet. */
  datatype Roots = Roots(active: map<string, Node>, deactivated: map<string, Node>, deactivatedRootExists: bool)

  /** A root that does not exist has no entries. */
  predicate Valid(r: Roots) {
    !r.deactivatedRootExists ==> r.deactivated == map[]
  }

  /** No skill is in both roots. */
  predicate Disjoint(r: Roots) {
    forall k :: k in r.active ==> k !in r.deactivated
  }

  /** Every skill, active or not. */
  function Skills(r: Roots): map<string, Node> {
    r.active + r.deactivated
  }

  /** Why a move was refused; `alreadyThere` records whether the skill is found at the target instead. */
  datatype MoveError = NotFound(alreadyThere: bool) | AlreadyExists

  datatype MoveResult = MoveResult(error: Option<MoveError>, roots: Roots)

  /** `to` is `from` with `name` set to `v`, and `from` agrees with `to` everywhere else. */
  ghost predicate OnlyAdds(from: map<string, Node>, to: map<string, Node>, name: string, v: Node) {
    name in to && to[name] == v && forall k :: k != name ==> (k in to <==> k in from) && (k in to ==> to[k] == from[k])
  }

  /** `to` is `from` without `name`, and the same everywhere else. */
  ghost predicate OnlyRemoves(from: map<string, Node>, to: map<string, Node>, name: string) {
    name !in to && forall k :: k != name ==> (k in to <==> k in from) && (k in to ==> to[k] == from[k])
  }

  /** `activateSkill`: the source must exist among the deactivated skills, and the name must be free among the active ones. */
  function Activate(r: Roots, name: string): (res: MoveResult)
    ensures res.error.None? <==> name in r.deactivated && name !in r.active
    ensures name !in r.deactivated ==> res.error == Some(NotFound(name in r.active))
    ensures name in r.deactivated && name in r.active ==> res.error == Some(AlreadyExists)
    ensures res.error.Some? ==> res.roots == r
    ensures res.error.None? ==>
              OnlyAdds(r.active, res.roots.active, name, r.deactivated[name])
              && OnlyRemoves(r.deactivated, res.roots.deactivated, name)
              && res.roots.deactivatedRootExists == r.deactivatedRootExists
    ensures Valid(r) ==> Valid(res.roots)
  {
    if name !in r.deactivated then MoveResult(Some(NotFound(name in r.active)), r)
    else if name in r.active then MoveResult(Some(AlreadyExists), r)
    else MoveResult(None, Roots(r.active[name := r.deactivated[name]], r.deactivated - {name}, r.deactivatedRootExists))
  }

  /**
   * `deactivateSkill`: the source must exist among the active skills; the
   * deactivated root is then created if missing, even when the move is
   * refused because the name is taken there.
   */
  function Deactivate(r: Roots, name: string): (res: MoveResult)
    ensures res.error.None? <==> name in r.active && name !in r.deactivated
    ensures name !in r.active ==> res.error == Some(NotFound(name in r.deactivated)) && res.roots == r
    ensures name in r.active ==> res.roots.deactivatedRootExists
    ensures name in r.active && name in r.deactivated ==>
              res.error == Some(AlreadyExists) && res.roots == r.(deactivatedRootExists := true)
    ensures res.error.None? ==>
              OnlyRemoves(r.active, res.roots.active, name)
              && OnlyAdds(r.deactivated, res.roots.deactivated, name, r.active[name])
    ensures Valid(r) ==> Valid(res.roots)
  {
    if name !in r.active then MoveResult(Some(NotFound(name in r.deactivated)), r)
    else
      var created := r.(deactivatedRootExists := true);
      if name in created.deactivated then MoveResult(Some(AlreadyExists), created)
      else MoveResult(None, Roots(r.active - {name}, r.deactivated[name := r.active[name]], true))
  }

  /** Deactivating and then activating a skill restores both roots; only the deactivated root now exists. */
  lemma DeactivateThenActivate(r: Roots, name: string)
    requires Deactivate(r, name).error.None?
    ensures Activate(Deactivate(r, name).roots, name) == MoveResult(None, r.(deactivatedRootExists := true))
  {
    var mid := Deactivate(r, name).roots;
    var back := Activate(mid, name);
    assert back.error.None?;
    MapsAgree(back.roots.active, r.active, name);
    MapsAgree(back.roots.deactivated, r.deactivated, name);
  }

  /** Activating and then deactivating a skill restores the roots exactly. */
  lemma ActivateThenDeactivate(r: Roots, name: string)
    requires Valid(r)
    requires Activate(r, name).error.None?
    ensures Deactivate(Activate(r, name).roots, name) == MoveResult(None, r)
  {
    var mid := Activate(r, name).roots;
    var back := Deactivate(mid, name);
    assert back.error.None?;
    MapsAgree(back.roots.active, r.active, name);
    MapsAgree(back.roots.deactivated, r.deactivated, name);
    assert r.deactivated != map[] by {
      assert name in r.deactivated;
    }
  }

  lemma MapsAgree(a: map<string, Node>, b: map<string, Node>, name: string)
    requires (name in a <==> name in b) && (name in a ==> a[name] == b[name])
    requires forall k :: k != name ==> (k in a <==> k in b) && (k in a ==> a[k] == b[k])
    ensures a == b
  {
    assert a.Keys == b.Keys;
  }

  /** A move never loses, duplicates or alters a skill: the roots stay disjoint and hold the same skills. */
  lemma {:induction false} MovesPreserveSkills(r: Roots, name: string)
    requires Disjoint(r)
    ensures Disjoint(Activate(r, name).roots) && Skills(Activate(r, name).roots) == Skills(r)
    ensures Disjoint(Deactivate(r, name).roots) && Skills(Deactivate(r, name).roots) == Skills(r)
  {
    var a := Activate(r, name);
    if a.error.None? {
      SameSkills(r, a.roots, name);
    }
    var d := Deactivate(r, name);
    if d.error.None? {
      SameSkills(r, d.roots, name);
    }
  }

  lemma SameSkills(r: Roots, s: Roots, name: string)
    requires Disjoint(r)
    requires name in r.active || name in r.deactivated
    requires name in s.active <==> name !in s.deactivated
    requires name in s.active ==> s.active[name] == Skills(r)[name]
    requires name in s.deactivated ==> s.deactivated[name] == Skills(r)[name]
    requires forall k :: k != name ==> (k in s.active <==> k in r.active) && (k in s.active ==> s.active[k] == r.active[k])
    requires forall k :: k != name ==> (k in s.deactivated <==> k in r.deactivated) && (k in s.deactivated ==> s.deactivated[k] == r.deactivated[k])
    ensures Disjoint(s) && Skills(s) == Skills(r)
  {
    MapsAgree(Skills(s), Skills(r), name);
  }
}
