/** Projectiles: the per-frame move-and-cull pass, which stops at the first
    projectile it finds off the screen. */
module Projectiles {
  import opened Entities
  import opened Collisions

  /** The edge test: the centre is more than r beyond some side of the canvas. */
  predicate OutOfBounds(b: Body, width: real, height: real) {
    b.x < -b.r || b.x > width + b.r || b.y < -b.r || b.y > height + b.r
  }

  /** Every body moved by one step. */
  function DriftAll(s: seq<Body>): seq<Body> {
    seq(|s|, k requires 0 <= k < |s| => Drift(s[k]))
  }

  /** Where the pass stops: scanning from the last index down, the first
      projectile that is off the screen once moved. */
  function LastOut(s: seq<Body>, width: real, height: real): (k: Option<nat>)
    ensures k.Some? ==> k.value < |s| && OutOfBounds(Drift(s[k.value]), width, height)
    ensures k.Some? ==> forall m :: k.value < m < |s| ==> !OutOfBounds(Drift(s[m]), width, height)
    ensures k.None? ==> forall m :: 0 <= m < |s| ==> !OutOfBounds(Drift(s[m]), width, height)
  {
    LastOutBelow(s, width, height, |s|)
  }

  /** The same scan started at index n - 1. */
  function LastOutBelow(s: seq<Body>, width: real, height: real, n: nat): (k: Option<nat>)
    requires n <= |s|
    ensures k.Some? ==> k.value < n && OutOfBounds(Drift(s[k.value]), width, height)
    ensures k.Some? ==> forall m :: k.value < m < n ==> !OutOfBounds(Drift(s[m]), width, height)
    ensures k.None? ==> forall m :: 0 <= m < n ==> !OutOfBounds(Drift(s[m]), width, height)
    decreases n
  {
    if n == 0 then None
    else if OutOfBounds(Drift(s[n - 1]), width, height) then Some(n - 1)
    else LastOutBelow(s, width, height, n - 1)
  }

  /** The projectile pass of a frame: the projectiles from the last one down to
      the first off-screen one are moved, that one is removed and the pass
      stops, so the projectiles below it are neither moved nor checked. */
  function CullOffscreen(s: seq<Body>, width: real, height: real): seq<Body> {
    match LastOut(s, width, height)
    case None => DriftAll(s)
    case Some(k) => s[..k] + DriftAll(s[k + 1..])
  }

  /** At most one projectile leaves per frame, and one leaves exactly when some
      projectile is off the screen after its move. */
  lemma CullRemovesAtMostOne(s: seq<Body>, width: real, height: real)
    ensures var r := CullOffscreen(s, width, height);
      (|r| == |s| || |r| == |s| - 1) &&
      (|r| == |s| - 1 <==> exists k :: 0 <= k < |s| && OutOfBounds(Drift(s[k]), width, height))
  {
    match LastOut(s, width, height)
    case None =>
    case Some(k) =>
  }

  /** The pass stops at index i whenever projectile i is off the screen once
      moved and every projectile above it stays on the screen (the converse is
      the contract of LastOut). */
  lemma LastOutIsLastExit(s: seq<Body>, width: real, height: real, i: nat)
    requires i < |s| && OutOfBounds(Drift(s[i]), width, height)
    requires forall k :: i < k < |s| ==> !OutOfBounds(Drift(s[k]), width, height)
    ensures LastOut(s, width, height) == Some(i)
  {
    match LastOut(s, width, height)
    case None =>
    case Some(j) =>
      assert !(j > i) && !(j < i);
  }

  /** When no projectile ends off the screen, the pass only moves them all. */
  lemma NoExitMovesAll(s: seq<Body>, width: real, height: real)
    requires forall k :: 0 <= k < |s| ==> !OutOfBounds(Drift(s[k]), width, height)
    ensures CullOffscreen(s, width, height) == DriftAll(s)
  {
    assert LastOut(s, width, height) == None;
  }

  /** Every projectile left after the pass is one from before, either as it was
      or moved by one step, so sizes and colours are kept. */
  lemma CullKeepsProjectiles(s: seq<Body>, width: real, height: real, b: Body)
    requires b in CullOffscreen(s, width, height)
    ensures exists k :: 0 <= k < |s| && (b == s[k] || b == Drift(s[k]))
  {
    var r := CullOffscreen(s, width, height);
    var i :| 0 <= i < |r| && r[i] == b;
    match LastOut(s, width, height)
    case None =>
      assert b == Drift(s[i]);
    case Some(k) =>
      if i < k {
        assert b == s[i];
      } else {
        assert b == Drift(s[k + 1..][i - k]) == Drift(s[i + 1]);
      }
  }

  /** When no projectile ends off the screen, every projectile has moved; when
      one does, everything after it has moved and stayed on the screen. */
  lemma CullMovesUpToTheExit(s: seq<Body>, width: real, height: real)
    ensures var r := CullOffscreen(s, width, height);
      match LastOut(s, width, height)
      case None => |r| == |s| && forall m :: 0 <= m < |s| ==> r[m] == Drift(s[m]) && !OutOfBounds(r[m], width, height)
      case Some(k) =>
        |r| == |s| - 1 &&
        (forall m :: 0 <= m < k ==> r[m] == s[m]) &&
        (forall m :: k < m < |s| ==> r[m - 1] == Drift(s[m]) && !OutOfBounds(r[m - 1], width, height))
  {
    var r := CullOffscreen(s, width, height);
    match LastOut(s, width, height)
    case None =>
      assert r == DriftAll(s);
    case Some(k) =>
      assert r == s[..k] + DriftAll(s[k + 1..]);
      forall m | k < m < |s| ensures r[m - 1] == Drift(s[m]) {
        assert r[m - 1] == DriftAll(s[k + 1..])[m - 1 - k];
      }
  }

  /** Two projectiles i < k that would both be off the screen once moved: the
      pass removes one at index k or above and stops there, so the lower one,
      i, is neither moved nor removed and waits for a later frame. */
  lemma SecondExitWaits(s: seq<Body>, width: real, height: real, i: nat, k: nat)
    requires i < k < |s|
    requires OutOfBounds(Drift(s[i]), width, height) && OutOfBounds(Drift(s[k]), width, height)
    ensures LastOut(s, width, height).Some? && k <= LastOut(s, width, height).value
    ensures var r := CullOffscreen(s, width, height); |r| == |s| - 1 && r[i] == s[i]
  {
    CullMovesUpToTheExit(s, width, height);
  }
}
