/**
 * The animation resource and its frame resolver (`Frame` and `Frame::next`
 * in src/frame_animation/ron_loader.rs).
 */
module FrameAnimation {

  /** A 2-D vector; the source's `f32` components are modelled as integers. */
  datatype Vec2 = Vec2(x: int, y: int)
  {
    function Plus(other: Vec2): (r: Vec2) {
      Vec2(x + other.x, y + other.y)
    }
  }

  const Zero := Vec2(0, 0)

  /** The cursor a Sequence moves to from `index` over a list of `len` entries. */
  function Advance(index: nat, len: nat): (r: nat)
    ensures len > 0 ==> r < len
    ensures index < len ==> r == (index + 1) % len
    ensures index >= len ==> r == 0
  {
    if index + 1 >= len then 0 else index + 1
  }

  /** What one resolver tick yields: the sprite to show, its root motion and the new cursor. */
  datatype Step = Step(sprite: nat, motion: Vec2, cursor: nat)

  /** The sprite index and the cursor, the two values a resolver tick starts from. */
  datatype Playhead = Playhead(sprite: nat, cursor: nat)

  /** One playback mode of an animation state. */
  datatype Frame =
    | Successive(start: nat, end: nat, rootMotion: seq<Vec2>)
    | Sequence(vec: seq<nat>, rootMotion: seq<Vec2>)
  {
    /** A tick from cursor `index` stays inside both lists (a Successive tick never indexes). */
    predicate CanAdvance(index: nat) {
      match this
      case Successive(_, _, _) => true
      case Sequence(vec, rootMotion) =>
        Advance(index, |vec|) < |vec| && Advance(index, |vec|) < |rootMotion|
    }

    /** Every cursor can advance: a non-empty index list with a motion for each entry. */
    predicate WellFormed() {
      Sequence? ==> 0 < |vec| <= |rootMotion|
    }

    /**
     * The next sprite and its motion, from the sprite index `current` now shown
     * and the intra-sequence cursor `index`.
     */
    function Next(current: nat, index: nat): (r: Step)
      requires CanAdvance(index)
      // Successive: restart at `start` when past the end or before the start, else step
      ensures Successive? ==> r.motion == Zero && r.cursor == index
      ensures Successive? && (current + 1 >= end || current < start) ==> r.sprite == start
      ensures Successive? && start <= current && current + 1 < end ==> r.sprite == current + 1
      ensures Successive? && start < end ==> start <= r.sprite < end
      ensures Successive? && start <= current < end ==>
                r.sprite == start + (current + 1 - start) % (end - start)
      // Sequence: the cursor moves cyclically and selects the frame and its motion
      ensures Sequence? ==> r.cursor < |vec| && r.cursor < |rootMotion| && r.sprite == vec[r.cursor] && r.motion == rootMotion[r.cursor]
      ensures Sequence? && index < |vec| ==> r.cursor == (index + 1) % |vec|
      ensures Sequence? && index >= |vec| ==> r.cursor == 0
    {
      match this
      case Successive(start, end, _) =>
        if current + 1 >= end then Step(start, Zero, index)
        else if current < start then Step(start, Zero, index)
        else Step(current + 1, Zero, index)
      case Sequence(vec, rootMotion) =>
        var i := Advance(index, |vec|);
        Step(vec[i], rootMotion[i], i)
    }
  }

  /** The sprite index and cursor after `n` consecutive resolver ticks. */
  function Play(f: Frame, p: Playhead, n: nat): (r: Playhead)
    requires f.WellFormed()
    decreases n
  {
    if n == 0 then p
    else
      var s := f.Next(p.sprite, p.cursor);
      Play(f, Playhead(s.sprite, s.cursor), n - 1)
  }

  /** The animation resource loaded from a `*.frame_anim.ron` file. */
  datatype AnimationData = AnimationData(
    name: string,
    texture: string,
    tileSize: Vec2,
    columns: nat,
    rows: nat,
    frames: map<string, Frame>)

  /** A Sequence tick is in bounds from every cursor exactly when the frame is well formed. */
  lemma CanAdvanceEverywhere(f: Frame)
    ensures (forall i: nat :: f.CanAdvance(i)) <==> f.WellFormed()
  {
    if f.Sequence? && !f.WellFormed() {
      var len := |f.vec|;
      var i: nat := if len >= 2 then len - 2 else 0;
      assert !f.CanAdvance(i);
    }
  }

  /** The Successive mode ignores its motion list. */
  lemma SuccessiveIgnoresRootMotion(start: nat, end: nat, m1: seq<Vec2>, m2: seq<Vec2>, current: nat, index: nat)
    ensures Successive(start, end, m1).Next(current, index) == Successive(start, end, m2).Next(current, index)
  {
  }

  /** Ticks compose: `n + m` ticks are `n` ticks followed by `m` more. */
  lemma {:induction false} PlayAdd(f: Frame, p: Playhead, n: nat, m: nat)
    requires f.WellFormed()
    ensures Play(f, p, n + m) == Play(f, Play(f, p, n), m)
    decreases n
  {
    if n > 0 {
      var s := f.Next(p.sprite, p.cursor);
      PlayAdd(f, Playhead(s.sprite, s.cursor), n - 1, m);
    }
  }

  /** Inside its range a Successive frame steps one sprite per tick. */
  lemma {:induction false} SuccessiveRun(f: Frame, p: Playhead, n: nat)
    requires f.Successive? && f.start <= p.sprite && p.sprite + n < f.end
    ensures Play(f, p, n) == Playhead(p.sprite + n, p.cursor)
    decreases n
  {
    if n > 0 {
      SuccessiveRun(f, Playhead(p.sprite + 1, p.cursor), n - 1);
    }
  }

  /** A Successive frame shown at a sprite of `[start, end)` shows it again after `end - start` ticks. */
  lemma SuccessiveCycle(f: Frame, p: Playhead)
    requires f.Successive? && f.start <= p.sprite < f.end
    ensures Play(f, p, f.end - f.start) == p
  {
    var toEnd := f.end - 1 - p.sprite;
    SuccessiveRun(f, p, toEnd);
    PlayAdd(f, p, toEnd, 1);
    var atStart := Playhead(f.start, p.cursor);
    assert Play(f, p, toEnd + 1) == atStart;
    SuccessiveRun(f, atStart, p.sprite - f.start);
    PlayAdd(f, p, toEnd + 1, p.sprite - f.start);
  }

  /** Within the list a Sequence frame moves its cursor one entry per tick and shows that entry. */
  lemma {:induction false} SequenceRun(f: Frame, p: Playhead, n: nat)
    requires f.Sequence? && f.WellFormed() && p.cursor + n < |f.vec|
    ensures Play(f, p, n).cursor == p.cursor + n
    ensures n > 0 ==> Play(f, p, n).sprite == f.vec[p.cursor + n]
    decreases n
  {
    if n > 0 {
      var s := f.Next(p.sprite, p.cursor);
      SequenceRun(f, Playhead(s.sprite, s.cursor), n - 1);
    }
  }

  /** A Sequence cursor inside the list returns to itself, showing its entry, after `|vec|` ticks. */
  lemma SequenceCycle(f: Frame, p: Playhead)
    requires f.Sequence? && f.WellFormed() && p.cursor < |f.vec|
    ensures Play(f, p, |f.vec|) == Playhead(f.vec[p.cursor], p.cursor)
  {
    var toLast := |f.vec| - 1 - p.cursor;
    SequenceRun(f, p, toLast);
    PlayAdd(f, p, toLast, 1);
    var atLast := Play(f, p, toLast);
    assert atLast.cursor == |f.vec| - 1;
    var s := f.Next(atLast.sprite, atLast.cursor);
    assert s.cursor == 0;
    var atFirst := Playhead(f.vec[0], 0);
    assert Play(f, atLast, 1) == Play(f, atFirst, 0) == atFirst;
    SequenceRun(f, atFirst, p.cursor);
    PlayAdd(f, p, toLast + 1, p.cursor);
    var back := Play(f, atFirst, p.cursor);
    assert back.cursor == p.cursor && back.sprite == f.vec[p.cursor];
  }

  /** A one-entry Sequence shows its only entry at cursor 0 on every tick. */
  lemma {:induction false} SingletonSequenceSteady(f: Frame, p: Playhead, n: nat)
    requires f.Sequence? && f.WellFormed() && |f.vec| == 1 && n > 0
    ensures Play(f, p, n) == Playhead(f.vec[0], 0)
    ensures f.Next(p.sprite, p.cursor) == Step(f.vec[0], f.rootMotion[0], 0)
    decreases n
  {
    if n > 1 {
      var s := f.Next(p.sprite, p.cursor);
      SingletonSequenceSteady(f, Playhead(s.sprite, s.cursor), n - 1);
    }
  }
}
