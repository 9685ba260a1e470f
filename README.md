# Frame animation, player state machine and start menu of eggplant_game

A Dafny model of the three pieces of sequential logic in this Bevy game:

- **Frame resolver** (`frame_animation.dfy`). An animation state is a `Frame`. A `Successive` frame loops the sprite index over the half-open range `[start, end)` and always yields zero motion. A `Sequence` frame moves a cursor cyclically over an explicit list of sprite indices. It yields the entry at the new cursor and the root motion stored with it. `Frame.Next` is the resolver. `Play` iterates it, and the lemmas give the cycle length of each mode.
- **Player** (`player.dfy`). `PlayerState` is the four-state machine. Its keys keep the source's spelling (`"idle-rigth"`, `"walk-rigth"`). `NextState` is the transition that `move_player` takes on an optional movement intent. The class `PlayerEntity` holds one player entity's components. Its methods `MovePlayer` and `AnimateSprite` are the per-entity bodies of the two systems, and they update the fields in place.
- **Start menu** (`menu.dfy`). `StartMenuItems` are the five entries. The class `StartMenu` is the cursor, and its `Prev`/`Next` go through the `u8` discriminant as the source does. `FromU8` is `from_u8`. `GetValue` gives the highlight slot of an entry. `Select` and `UpdateSelectButton` model the key handling.

`wrappers.dfy` holds the `Option` type that stands for Rust's `Option`.

Modelling choices:
- `usize` is a `nat` and `u8` is a newtype over `0..255`.
- Bevy's `Vec2` (`f32` components) is an integer pair, with `Zero` for `Vec2::ZERO`.
- The animation timer becomes a boolean `fired` ("just finished").
- The loaded asset is an `Option<AnimationData>` whose `frames` are a `map<string, Frame>`.
- The movement intent is an `Option<Vec2>`.
- The keyboard is three booleans saying whether Up, Down and Return were just released.
- The `f32` smoothing step of `move_player` is a function parameter `smooth(x, targetX)`. The model therefore states only *whether* the translation is updated, and from which values.
- Menu slots are kept in pixels of the 640x480 layout: left 93, and a top of 206, 238, 270, 302 or 334.
- `GameState` (declared in `src/lib.rs`) is modelled as `Loading | Menu | Playing`, the three states that src/loading.rs, src/menu.rs and src/player.rs use (`Loading`, `Menu`, `Playing`). `src/lib.rs` and `src/actions.rs` are not part of this model.

`Frame.Next` requires `CanAdvance(index)`. That predicate is exactly the condition under which the source's `vec[*index]` and `root_motion[*index]` stay in bounds. Outside it the source panics. `CanAdvanceEverywhere` proves that this holds for every cursor exactly when the frame is `WellFormed`: a non-empty index list and at least one motion per entry.

## Model

| member | source | states |
|---|---|---|
| FrameAnimation.Advance | src/frame_animation/ron_loader.rs:48-52 | the new cursor is `(index + 1) mod len` for a cursor inside a non-empty list, so always `< len`; a cursor at or past the end restarts at 0 |
| FrameAnimation.Frame.Next | src/frame_animation/ron_loader.rs:32-66 | Successive: restart at `start` when `current + 1 >= end` or `current < start`, else `current + 1`; motion always zero, cursor untouched, result in `[start, end)` when `start < end` and equal to `start + (current + 1 - start) mod (end - start)` inside the range. Sequence: new cursor `(index + 1) mod len` (0 from outside the list), result `(vec[c], root_motion[c])` at that cursor |
| FrameAnimation.CanAdvanceEverywhere | src/frame_animation/ron_loader.rs:47-53 | the Sequence indexing is in bounds from every cursor iff the index list is non-empty and the motion list is at least as long |
| FrameAnimation.SuccessiveIgnoresRootMotion | src/frame_animation/ron_loader.rs:34-46 | the Successive result does not depend on its `root_motion` list |
| FrameAnimation.PlayAdd | src/frame_animation/ron_loader.rs:32-66 | `n + m` resolver ticks equal `n` ticks followed by `m` |
| FrameAnimation.SuccessiveRun | src/frame_animation/ron_loader.rs:39-45 | inside `[start, end)` each tick advances the sprite by one and keeps the cursor |
| FrameAnimation.SuccessiveCycle | src/frame_animation/ron_loader.rs:39-45 | from any sprite in `[start, end)`, `end - start` ticks come back to that sprite and cursor |
| FrameAnimation.SequenceRun | src/frame_animation/ron_loader.rs:48-53 | inside the list each tick advances the cursor by one and shows the entry there |
| FrameAnimation.SequenceCycle | src/frame_animation/ron_loader.rs:48-53 | from a cursor inside the list, `len` ticks return the cursor to itself, showing `vec[cursor]` |
| FrameAnimation.SingletonSequenceSteady | src/frame_animation/ron_loader.rs:48-53 | a one-entry Sequence yields `(vec[0], root_motion[0])` at cursor 0 on every tick, however many ticks |
| Player.PlayerState.ToString | src/player.rs:162-171 | the key starts with `walk-` exactly for the walking states and ends with `left` exactly for the left-facing ones |
| Player.ToStringInjective | src/player.rs:162-171 | distinct states have distinct keys |
| Player.NextState | src/player.rs:145-156 | no intent: walking stops, facing kept (idle states unchanged); intent with `x > 0` walks right, `x < 0` walks left, `x == 0` keeps the state |
| Player.WalkNeedsIntent | src/player.rs:145-156 | a state only starts walking or turns on an intent whose sign gives the new direction; an idle state with no intent stays put |
| Player.FrameFor | src/player.rs:116-117 | a frame is found iff the asset is loaded and has the state's key, and it is the one stored under that key |
| Player.PlayerEntity.constructor | src/player.rs:48-90 | a fresh player is `IdleRigth` with cursor 0, sprite 0, target (0, 0) at the origin |
| Player.PlayerEntity.MovePlayer | src/player.rs:128-160 | the state becomes `NextState(old state, intent)`; the translation changes only with an intent, and then only its `x`, to `smooth(x, target.x)`; nothing else changes |
| Player.PlayerEntity.AnimateSprite | src/player.rs:100-126 | without a fired timer, a loaded asset or the key, sprite, cursor and target are unchanged; on a hit they become the `Next` sprite and cursor from the old sprite and cursor, and translation + motion; the state and translation never change |
| Menu.StartMenuItems.AsU8 | src/menu.rs:58-64 | the discriminant is below 5, 0 exactly for `StartGame`, 4 exactly for `Exit` |
| Menu.StartMenuItems.Succ | src/menu.rs:87-93 | the next entry's discriminant is the current one plus 1 mod 5 |
| Menu.StartMenuItems.Pred | src/menu.rs:78-85 | the previous entry's discriminant is the current one minus 1 mod 5 |
| Menu.FromU8 | src/menu.rs:210-221 | values 0..4 map to the entry with that discriminant, any other value to `StartGame` |
| Menu.FromU8AsU8 | src/menu.rs:58-64 | `from_u8(item as u8) == item` |
| Menu.SuccPredInverse | src/menu.rs:78-93 | `next` then `prev`, and `prev` then `next`, return to the same entry |
| Menu.FiveMovesReturn | src/menu.rs:78-93 | five moves in one direction return to the starting entry |
| Menu.StartMenu.constructor | src/menu.rs:72-76 | a new menu cursor is on `StartGame` |
| Menu.StartMenu.Prev | src/menu.rs:78-85 | the discriminant arithmetic (`0` becomes 5, then minus one) moves the cursor to the previous entry |
| Menu.StartMenu.Next | src/menu.rs:87-93 | the discriminant arithmetic (plus one, above 4 becomes 0) moves the cursor to the next entry |
| Menu.GetValue | src/menu.rs:223-233 | the slot of an entry is the `SelectPosition` field at the entry's discriminant, in declaration order (the default slots and their distinctness are `DefaultSlots`) |
| Menu.DefaultSlots | src/menu.rs:26-56 | with the default positions entry `k` is in column 93 at row `206 + 32 k`, and distinct entries get distinct slots |
| Menu.Select | src/menu.rs:173-183 | Up moves to the previous entry and wins over Down, Down moves to the next, otherwise the entry stays; play starts iff Return was released and the entry reached is `StartGame` |
| Menu.MoveBeforeReturn | src/menu.rs:173-183 | the move happens before Return is checked: Up+Return on `ContinueGame` and Down+Return on `Exit` start the game, Down+Return on `StartGame` does not |
| Menu.UpdateSelectButton | src/menu.rs:162-185 | with no key released nothing changes; otherwise the cursor and the highlight slot follow `Select`, and the game state becomes `Playing` exactly when `Select` says play |

## Left out

- Loading and parsing of `*.frame_anim.ron` files (`AnimationLoader::load`, `extensions`): asynchronous asset I/O and deserialisation done by external crates.
- `src/frame_animation/dragon_loader.rs`: a stub loader over an empty struct, with no logic.
- `src/loading.rs` and `src/main.rs`: asset and application configuration.
- Spawning the scene, camera and menu, the physics bundles, `clear_menu` and the plugin `build` methods: engine glue.
- Floating point. The exponential smoothing `(target - x) * delta * 10` is an opaque function parameter, and the `Val::Percent` conversions of the menu slots are left as pixel coordinates. Vector components are integers.
- Bevy's `Timer`: it becomes the `fired` input.
- The query loops of `move_player`, `animate_sprite` and `update_select_button` are modelled as one call for one entity. Each loop iteration touches only that entity's components. The order in which the host schedules `move_player` and `animate_sprite` is not modelled.
- `usize` overflow of `current + 1` and `*index + 1` at the largest `usize`: indices are unbounded.
- Menu.UpdateSelectButton: does not model the panic of `state.set(GameState::Playing).unwrap()` when a transition is already queued or the game is already `Playing`. The system runs only in the `Menu` state, and the model simply yields `Playing`.
