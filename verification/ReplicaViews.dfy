/** What one replica holds for the session and stream of one activation, and how it may change. */
module ReplicaViews {
  import opened Names
  import opened Snapshots

  datatype View = View(initialized: bool, sealed: bool, head: Option<Snapshot>)

  const Blank := View(false, false, None)

  /** An append is taken in an open session, and only moves the head up or repeats it. */
  predicate CanAppend(v: View, s: Snapshot) {
    && v.initialized
    && !v.sealed
    && (v.head.None? || v.head.value.version < s.version || v.head.value == s)
  }

  function Appended(v: View, s: Snapshot): View {
    v.(head := Some(s))
  }

  predicate HeadAtLeast(v: View, version: nat) {
    v.head.Some? && version <= v.head.value.version
  }

  /** `b` has everything `a` has: nothing is forgotten and no head moves down. */
  predicate Extends(a: View, b: View) {
    && (a.initialized ==> b.initialized)
    && (a.sealed ==> b.sealed)
    && (a.head.Some? ==> HeadAtLeast(b, a.head.value.version))
  }
}
