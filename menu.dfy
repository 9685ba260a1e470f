/**
 * The start menu's cursor (`StartMenuItems`, `StartMenu`, `SelectPosition`
 * and `update_select_button` in src/menu.rs).
 */
module Menu {

  newtype u8 = x: int | 0 <= x < 256

  /** The five menu entries, in screen order; the discriminant is `AsU8`. */
  datatype StartMenuItems = StartGame | ContinueGame | BonusMenu | Options | Exit
  {
    /** `item as u8`. */
    function AsU8(): (v: u8)
      ensures v < 5
      ensures v == 0 <==> this == StartGame
      ensures v == 4 <==> this == Exit
    {
      match this
      case StartGame => 0
      case ContinueGame => 1
      case BonusMenu => 2
      case Options => 3
      case Exit => 4
    }

    /** The entry below this one, wrapping from the last to the first. */
    function Succ(): (r: StartMenuItems)
      ensures r.AsU8() as int == (AsU8() as int + 1) % 5
    {
      match this
      case StartGame => ContinueGame
      case ContinueGame => BonusMenu
      case BonusMenu => Options
      case Options => Exit
      case Exit => StartGame
    }

    /** The entry above this one, wrapping from the first to the last. */
    function Pred(): (r: StartMenuItems)
      ensures r.AsU8() as int == (AsU8() as int + 4) % 5
    {
      match this
      case StartGame => Exit
      case ContinueGame => StartGame
      case BonusMenu => ContinueGame
      case Options => BonusMenu
      case Exit => Options
    }
  }

  /** `StartMenuItems::from_u8`: a discriminant back to its entry, anything else to `StartGame`. */
  function FromU8(v: u8): (r: StartMenuItems)
    ensures v < 5 ==> r.AsU8() == v
    ensures v >= 5 ==> r == StartGame
  {
    match v
    case 0 => StartGame
    case 1 => ContinueGame
    case 2 => BonusMenu
    case 3 => Options
    case 4 => Exit
    case _ => StartGame
  }

  /** `from_u8` inverts the discriminant. */
  lemma FromU8AsU8(item: StartMenuItems)
    ensures FromU8(item.AsU8()) == item
  {
  }

  /** Moving down then up, or up then down, comes back to the same entry. */
  lemma SuccPredInverse(item: StartMenuItems)
    ensures item.Succ().Pred() == item && item.Pred().Succ() == item
  {
  }

  /** The entry reached by `n` moves down (or up, when `down` is false). */
  function Moves(item: StartMenuItems, down: bool, n: nat): (r: StartMenuItems)
    decreases n
  {
    if n == 0 then item
    else Moves(if down then item.Succ() else item.Pred(), down, n - 1)
  }

  /** Five moves in one direction come back to the starting entry. */
  lemma FiveMovesReturn(item: StartMenuItems, down: bool)
    ensures Moves(item, down, 5) == item
  {
  }

  /** The menu's selection cursor component. */
  class StartMenu {
    var item: StartMenuItems

    /** `StartMenu::new`: the cursor starts on the first entry. */
    constructor ()
      ensures item == StartGame
    {
      item := StartGame;
    }

    /** `StartMenu::prev`: move up one entry through the discriminant, wrapping at the top. */
    method Prev()
      modifies this
      ensures item == old(item).Pred()
    {
      var v := item.AsU8();
      if v == 0 {
        v := 5;
      }
      v := v - 1;
      item := FromU8(v);
    }

    /** `StartMenu::next`: move down one entry through the discriminant, wrapping at the bottom. */
    method Next()
      modifies this
      ensures item == old(item).Succ()
    {
      var v := item.AsU8() + 1;
      if v > 4 {
        v := 0;
      }
      item := FromU8(v);
    }
  }

  /** A selector position on the 640x480 menu background, in pixels. */
  datatype Slot = Slot(left: int, top: int)

  /** The highlight position of each entry (`SelectPosition`). */
  datatype SelectPosition = SelectPosition(
    startGame: Slot,
    continueGame: Slot,
    bonusMenu: Slot,
    options: Slot,
    exit: Slot)

  /** `SelectPosition::default`: one slot per entry, 32 pixels apart. */
  const DefaultPositions := SelectPosition(
    Slot(93, 206), Slot(93, 238), Slot(93, 270), Slot(93, 302), Slot(93, 334))

  /** `SelectPosition::get_value`. */
  function GetValue(sp: SelectPosition, item: StartMenuItems): (r: Slot)
    ensures r == [sp.startGame, sp.continueGame, sp.bonusMenu, sp.options, sp.exit][item.AsU8()]
  {
    match item
    case StartGame => sp.startGame
    case ContinueGame => sp.continueGame
    case BonusMenu => sp.bonusMenu
    case Options => sp.options
    case Exit => sp.exit
  }

  /** With the default positions entry `k` sits in column 93 at row `206 + 32 k`, so slots are distinct. */
  lemma DefaultSlots(item: StartMenuItems, other: StartMenuItems)
    ensures GetValue(DefaultPositions, item) == Slot(93, 206 + 32 * item.AsU8() as int)
    ensures GetValue(DefaultPositions, item) == GetValue(DefaultPositions, other) ==> item == other
  {
  }

  /** The keys released this frame. */
  datatype Keys = Keys(up: bool, down: bool, enter: bool)

  /** The game's top-level states (the `GameState` the menu switches). */
  datatype GameState = Loading | Menu | Playing

  /** What one `update_select_button` pass decides: the entry, and whether to start playing. */
  datatype Selection = Selection(item: StartMenuItems, play: bool)

  /**
   * The key decision of `update_select_button`: Up wins over Down, and Return
   * starts the game when the entry reached is `StartGame`.
   */
  function Select(item: StartMenuItems, keys: Keys): (r: Selection)
    ensures keys.up ==> r.item == item.Pred()
    ensures !keys.up && keys.down ==> r.item == item.Succ()
    ensures !keys.up && !keys.down ==> r.item == item
    ensures r.play <==> keys.enter && r.item == StartGame
  {
    var moved := if keys.up then item.Pred() else if keys.down then item.Succ() else item;
    Selection(moved, keys.enter && moved == StartGame)
  }

  /** Return on `ContinueGame` with Up starts the game; with Down it does not. */
  lemma MoveBeforeReturn()
    ensures Select(ContinueGame, Keys(true, true, true)) == Selection(StartGame, true)
    ensures Select(Exit, Keys(false, true, true)) == Selection(StartGame, true)
    ensures !Select(StartGame, Keys(false, true, true)).play
  {
  }

  /** The highlighted image's style, whose `position` the system rewrites. */
  class Style {
    var position: Slot

    constructor (position: Slot)
      ensures this.position == position
    {
      this.position := position;
    }
  }

  /**
   * One `update_select_button` run over the menu entity `(ui, menu)`, in game
   * state `state`; returns the game state afterwards.
   */
  method UpdateSelectButton(sp: SelectPosition, state: GameState, keys: Keys, ui: Style, menu: StartMenu)
      returns (next: GameState)
    modifies ui, menu
    ensures !(keys.up || keys.down || keys.enter) ==>
              menu.item == old(menu.item) && ui.position == old(ui.position) && next == state
    ensures keys.up || keys.down || keys.enter ==>
              var sel := Select(old(menu.item), keys);
              menu.item == sel.item && ui.position == GetValue(sp, sel.item) &&
              next == if sel.play then Playing else state
  {
    next := state;
    if keys.up || keys.down || keys.enter {
      if keys.up {
        menu.Prev();
      } else if keys.down {
        menu.Next();
      }
      ui.position := GetValue(sp, menu.item);
      if keys.enter {
        if menu.item == StartGame {
          next := Playing;
        }
      }
    }
  }
}
