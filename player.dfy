/**
 * The player's animation state machine and its per-entity systems
 * (`PlayerState`, `move_player` and `animate_sprite` in src/player.rs).
 */
module Player {
  import opened Wrappers
  import opened FrameAnimation

  /** The four animation states; the right-facing names keep the source's spelling. */
  datatype PlayerState = IdleLeft | IdleRigth | WalkLeft | WalkRigth
  {
    predicate IsWalking() {
      WalkLeft? || WalkRigth?
    }

    predicate FacesLeft() {
      IdleLeft? || WalkLeft?
    }

    /** The key of this state's animation in `AnimationData.frames`. */
    function ToString(): (k: string)
      ensures k in {"idle-left", "idle-rigth", "walk-left", "walk-rigth"}
      ensures IsWalking() <==> k[..5] == "walk-"
      ensures FacesLeft() <==> k[|k| - 4..] == "left"
    {
      match this
      case IdleLeft => assert "idle-left"[0] != "walk-"[0]; "idle-left"
      case IdleRigth => assert "idle-rigth"[0] != "walk-"[0]; "idle-rigth"
      case WalkLeft => "walk-left"
      case WalkRigth => "walk-rigth"
    }
  }

  /** Distinct states look up distinct animations. */
  lemma ToStringInjective(a: PlayerState, b: PlayerState)
    ensures a.ToString() == b.ToString() ==> a == b
  {
  }

  /**
   * The state `move_player` selects from the current state and the optional
   * movement intent: no intent stops walking in the same direction, a
   * horizontal intent walks that way, a purely vertical one changes nothing.
   */
  function NextState(s: PlayerState, intent: Option<Vec2>): (r: PlayerState)
    ensures intent.None? ==> !r.IsWalking() && r.FacesLeft() == s.FacesLeft()
    ensures intent.Some? && intent.value.x > 0 ==> r == WalkRigth
    ensures intent.Some? && intent.value.x < 0 ==> r == WalkLeft
    ensures intent.Some? && intent.value.x == 0 ==> r == s
  {
    match intent
    case None =>
      (match s
       case WalkLeft => IdleLeft
       case WalkRigth => IdleRigth
       case _ => s)
    case Some(v) =>
      if v.x > 0 then WalkRigth
      else if v.x < 0 then WalkLeft
      else s
  }

  /** A state starts walking, or turns, only on a horizontal intent in its direction. */
  lemma WalkNeedsIntent(s: PlayerState, intent: Option<Vec2>)
    ensures NextState(s, intent) != s && NextState(s, intent).IsWalking() ==>
              intent.Some? && (NextState(s, intent).FacesLeft() <==> intent.value.x < 0)
    ensures s.IsWalking() == false && intent.None? ==> NextState(s, intent) == s
  {
  }

  /** The animation for `s` in the loaded asset, if the asset is loaded and holds that key. */
  function FrameFor(asset: Option<AnimationData>, s: PlayerState): (r: Option<Frame>)
    ensures r.Some? <==> asset.Some? && s.ToString() in asset.value.frames
    ensures r.Some? ==> r.value == asset.value.frames[s.ToString()]
  {
    match asset
    case None => None
    case Some(data) =>
      if s.ToString() in data.frames then Some(data.frames[s.ToString()]) else None
  }

  /**
   * One player entity with the components the two systems use:
   * `PlayerStateComponent` (`state`, `index`), the sprite's `spriteIndex`,
   * `TagetMove` (`target`) and the transform's `translation`.
   */
  class PlayerEntity {
    var state: PlayerState
    var index: nat
    var spriteIndex: nat
    var target: Vec2
    var translation: Vec2

    /** `spawn_player`: the default state component, target (0, 0), sprite 0, at the origin. */
    constructor ()
      ensures state == IdleRigth && index == 0
      ensures spriteIndex == 0 && target == Zero && translation == Zero
    {
      state := IdleRigth;
      index := 0;
      spriteIndex := 0;
      target := Zero;
      translation := Zero;
    }

    /**
     * One `move_player` iteration. `smooth(x, tx)` stands for the smoothed
     * horizontal position moved from `x` towards the target's `tx`.
     */
    method MovePlayer(intent: Option<Vec2>, smooth: (int, int) -> int)
      modifies this
      ensures state == NextState(old(state), intent)
      ensures intent.None? ==> translation == old(translation)
      ensures intent.Some? ==> translation == Vec2(smooth(old(translation.x), old(target.x)), old(translation.y))
      ensures index == old(index) && spriteIndex == old(spriteIndex) && target == old(target)
    {
      if intent.None? {
        state := match state
          case WalkLeft => IdleLeft
          case WalkRigth => IdleRigth
          case _ => state;
        return;
      } else if intent.value.x > 0 {
        state := WalkRigth;
      } else if intent.value.x < 0 {
        state := WalkLeft;
      }
      translation := Vec2(smooth(translation.x, target.x), translation.y);
    }

    /**
     * One `animate_sprite` iteration; `fired` says whether the animation timer
     * has just finished. On a hit the resolver's sprite and cursor are written
     * back and the target becomes the translation plus the frame's motion;
     * otherwise nothing changes.
     */
    method AnimateSprite(fired: bool, asset: Option<AnimationData>)
      requires fired && FrameFor(asset, state).Some? ==> FrameFor(asset, state).value.CanAdvance(index)
      modifies this
      ensures state == old(state) && translation == old(translation)
      ensures !fired || FrameFor(asset, state).None? ==>
                spriteIndex == old(spriteIndex) && index == old(index) && target == old(target)
      ensures fired && FrameFor(asset, state).Some? ==>
                var step := FrameFor(asset, state).value.Next(old(spriteIndex), old(index));
                spriteIndex == step.sprite && index == step.cursor && target == translation.Plus(step.motion)
      ensures fired && FrameFor(asset, state).Some? ==>
                var f := FrameFor(asset, state).value;
                (f.Successive? ==> index == old(index) && target == translation &&
                                   (f.start < f.end ==> f.start <= spriteIndex < f.end)) &&
                (f.Sequence? ==> index < |f.vec| && spriteIndex == f.vec[index])
    {
      if fired {
        if asset.Some? {
          var data := asset.value;
          var key := state.ToString();
          if key in data.frames {
            var step := data.frames[key].Next(spriteIndex, index);
            spriteIndex := step.sprite;
            index := step.cursor;
            target := Vec2(translation.x + step.motion.x, translation.y + step.motion.y);
          }
        }
      }
    }
  }
}
