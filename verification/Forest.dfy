/**
 * The parent forest of archived snapshots: each name maps to the name it was sent against, or to
 * nothing for a full archive. Depth, restore chain and root are three readings of the same links.
 */
module Forest {
  import opened Prelude
  import opened Order

  type Forest = map<string, Option<string>>

  /** Every parent is present and strictly older. */
  ghost predicate WellFormed(f: Forest) {
    forall n {:trigger f[n]} :: n in f && f[n].Some? ==> f[n].value in f && Less(f[n].value, n)
  }

  /** The names of `f` before `n`: what walking up from `n` may still visit. */
  ghost function Older(f: Forest, n: string): set<string> {
    set k | k in f && Less(k, n)
  }

  lemma OlderShrinks(f: Forest, parent: string, n: string)
    requires parent in f && Less(parent, n)
    ensures Older(f, parent) < Older(f, n)
  {
    LessIrreflexive(parent);
    forall k | k in Older(f, parent) ensures k in Older(f, n) { LessTransitive(k, parent, n); }
    assert parent in Older(f, n) && parent !in Older(f, parent);
  }

  /** Number of incrementals below `n`; an unknown name counts as a full. */
  ghost function Depth(f: Forest, n: string): nat
    requires WellFormed(f)
    decreases Older(f, n)
  {
    if n !in f || f[n].None? then 0
    else
      OlderShrinks(f, f[n].value, n);
      Depth(f, f[n].value) + 1
  }

  /** The archives needed to restore `n`, in the order they are applied. */
  ghost function Chain(f: Forest, n: string): seq<string>
    requires WellFormed(f) && n in f
    decreases Older(f, n)
  {
    if f[n].None? then [n]
    else
      OlderShrinks(f, f[n].value, n);
      Chain(f, f[n].value) + [n]
  }

  /** The full archive that `n` builds on. */
  ghost function Root(f: Forest, n: string): string
    requires WellFormed(f) && n in f
    decreases Older(f, n)
  {
    if f[n].None? then n
    else
      OlderShrinks(f, f[n].value, n);
      Root(f, f[n].value)
  }

  /** `a` is reached from `n` by following parent links. */
  ghost predicate IsAncestor(f: Forest, a: string, n: string)
    requires WellFormed(f)
    decreases Older(f, n)
  {
    n in f && (a == n || (f[n].Some? && (OlderShrinks(f, f[n].value, n); IsAncestor(f, a, f[n].value))))
  }

  /** The restore chain has depth + 1 members, starts at the root, ends at the target, climbs in time. */
  lemma {:induction false} ChainShape(f: Forest, n: string)
    requires WellFormed(f) && n in f
    ensures |Chain(f, n)| == Depth(f, n) + 1
    ensures Chain(f, n)[0] == Root(f, n) && Root(f, n) in f && f[Root(f, n)].None?
    ensures Chain(f, n)[|Chain(f, n)| - 1] == n
    ensures forall i :: 0 < i < |Chain(f, n)| ==>
      Chain(f, n)[i] in f && f[Chain(f, n)[i]] == Some(Chain(f, n)[i - 1]) && Less(Chain(f, n)[i - 1], Chain(f, n)[i])
    decreases Older(f, n)
  {
    if f[n].Some? {
      OlderShrinks(f, f[n].value, n);
      ChainShape(f, f[n].value);
    }
  }

  /** The chain holds exactly the ancestors. */
  lemma {:induction false} ChainIsAncestry(f: Forest, n: string, a: string)
    requires WellFormed(f) && n in f
    ensures a in Chain(f, n) <==> IsAncestor(f, a, n)
    ensures IsAncestor(f, a, n) ==> a in f && (a == n || Less(a, n))
    decreases Older(f, n)
  {
    if f[n].Some? {
      var p := f[n].value;
      OlderShrinks(f, p, n);
      ChainIsAncestry(f, p, a);
      if IsAncestor(f, a, p) && a != p { LessTransitive(a, p, n); }
    }
  }

  /** A parent of an ancestor is an ancestor. */
  lemma {:induction false} AncestorsClosed(f: Forest, n: string, a: string)
    requires WellFormed(f) && n in f && a in f && IsAncestor(f, a, n) && f[a].Some?
    ensures IsAncestor(f, f[a].value, n)
    decreases Older(f, n)
  {
    if a != n {
      OlderShrinks(f, f[n].value, n);
      AncestorsClosed(f, f[n].value, a);
    } else {
      OlderShrinks(f, f[n].value, n);
    }
  }

  /** Adding a name that is new, with a present older parent or none, keeps the forest well formed. */
  lemma GrowWellFormed(f: Forest, n: string, parent: Option<string>)
    requires WellFormed(f) && n !in f
    requires parent.Some? ==> parent.value in f && Less(parent.value, n)
    ensures WellFormed(f[n := parent])
  {
  }

  /** Growing the forest changes the depth, chain and root of no name that was there. */
  lemma {:induction false} GrowKeeps(f: Forest, g: Forest, n: string)
    requires WellFormed(f) && WellFormed(g) && n in f
    requires forall k :: k in f ==> k in g && g[k] == f[k]
    ensures Depth(g, n) == Depth(f, n)
    ensures Chain(g, n) == Chain(f, n)
    ensures Root(g, n) == Root(f, n)
    decreases Older(f, n)
  {
    if f[n].Some? {
      OlderShrinks(f, f[n].value, n);
      OlderShrinks(g, g[n].value, n);
      GrowKeeps(f, g, f[n].value);
    }
  }

  /** `lf` names the most recent full archive of `f`, if there is one. */
  ghost predicate IsNewestFull(f: Forest, lf: Option<string>) {
    match lf
    case None => forall n :: n in f ==> f[n].Some?
    case Some(l) => l in f && f[l].None? && forall n :: n in f && f[n].None? ==> n == l || Less(n, l)
  }
}
