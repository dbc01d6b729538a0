/**
 * The context menu (src/menu.ts): its open/closed state, the rectangle it
 * occupies next to the mouse, and the click test over its option bands.
 * Actions are opaque values of type `A`: a click returns the action to run
 * instead of running it.
 */
module Menu {
  import opened Wrappers
  import opened Hex
  import opened Drawables

  const OptionWidth: real := 256.0
  const OptionHeight: real := 48.0
  const Padding: real := 16.0
  const MaxOptions: int := 5
  const MaxOptionsHeightWithPadding: real := Padding * 2.0 + MaxOptions as real * OptionHeight
  const DisplayWidth: real := 1000.0
  const DisplayHeight: real := 1000.0

  /** An option runs an action or opens a submenu. */
  datatype Target<A> = Action(action: A) | Submenu(options: seq<MenuOption<A>>)

  datatype MenuOption<A> = MenuOption(text: string, target: Target<A>)

  datatype Rect = Rect(left: real, top: real, height: real)

  function Max(a: real, b: real): real {
    if a >= b then a else b
  }

  function Min(a: real, b: real): real {
    if a <= b then a else b
  }

  /**
   * The bounding rectangle for `count` options opened at `mouse`: centred on
   * the mouse horizontally but kept on the display, below the mouse, or above
   * it when a full menu would not fit below.
   */
  function MenuRect(count: nat, mouse: Point): (rect: Rect)
    ensures Padding <= rect.left <= DisplayWidth - Padding * 2.0 - OptionWidth + Padding
    ensures rect.height == count as real * OptionHeight
  {
    var widthWithPadding := Padding * 2.0 + OptionWidth;
    var height := count as real * OptionHeight;
    var heightWithPadding := Padding * 2.0 + height;
    Rect(
      Padding + Max(0.0, Min(DisplayWidth - widthWithPadding, mouse.x - widthWithPadding / 2.0)),
      mouse.y + Padding - (if mouse.y > DisplayHeight - MaxOptionsHeightWithPadding then heightWithPadding else 0.0),
      height)
  }

  /**
   * Where the clamp does not bite the menu is centred on the mouse; and a
   * menu of at most five options opened anywhere on the display lies wholly
   * on it, one padding away from every edge.
   */
  lemma MenuRectPlacement(count: nat, mouse: Point)
    ensures 16.0 <= MenuRect(count, mouse).left <= 728.0
    ensures 144.0 <= mouse.x <= 856.0 ==> MenuRect(count, mouse).left + OptionWidth / 2.0 == mouse.x
    ensures mouse.y <= 728.0 ==> MenuRect(count, mouse).top == mouse.y + 16.0
    ensures mouse.y > 728.0 ==> MenuRect(count, mouse).top == mouse.y + 16.0 - (32.0 + 48.0 * count as real)
    ensures count <= MaxOptions && 0.0 <= mouse.y <= DisplayHeight ==>
      && Padding <= MenuRect(count, mouse).top
      && MenuRect(count, mouse).top + MenuRect(count, mouse).height <= DisplayHeight - Padding
      && MenuRect(count, mouse).left + OptionWidth <= DisplayWidth - Padding
  {
  }

  /** Whether `mouse` falls in the half-open band of option `index`. */
  predicate IsInOption(rect: Rect, mouse: Point, index: int) {
    && mouse.x >= rect.left
    && mouse.x < rect.left + OptionWidth
    && mouse.y >= rect.top + index as real * OptionHeight
    && mouse.y < rect.top + (index + 1) as real * OptionHeight
  }

  /** The bands are disjoint: a point lies in at most one option. */
  lemma OptionBandsDisjoint(rect: Rect, mouse: Point, i: int, j: int)
    requires IsInOption(rect, mouse, i) && IsInOption(rect, mouse, j)
    ensures i == j
  {
  }

  /** The first of the first `count` options whose band holds `mouse`. */
  function HitIndex(rect: Rect, mouse: Point, count: nat): (hit: Option<nat>)
    ensures hit.Some? ==> hit.value < count && IsInOption(rect, mouse, hit.value)
    ensures hit.None? ==> forall i :: 0 <= i < count ==> !IsInOption(rect, mouse, i)
  {
    if count == 0 then None
    else if HitIndex(rect, mouse, count - 1).Some? then HitIndex(rect, mouse, count - 1)
    else if IsInOption(rect, mouse, count - 1) then Some(count - 1)
    else None
  }

  /** Since the bands are disjoint, the hit is the only option under the mouse. */
  lemma HitIndexUnique(rect: Rect, mouse: Point, count: nat, i: nat)
    requires i < count && IsInOption(rect, mouse, i)
    ensures HitIndex(rect, mouse, count) == Some(i)
  {
    var hit := HitIndex(rect, mouse, count);
    OptionBandsDisjoint(rect, mouse, hit.value, i);
  }

  class Menu<A> {
    var isOpen: bool
    var rect: Rect
    var handle: int
    var lastOptions: seq<MenuOption<A>>
    var lastMouse: Point

    /** Closed, with the no-op handle, no options and the mouse at (0, 0). */
    constructor()
      ensures !isOpen && rect == Rect(0.0, 0.0, 0.0) && handle == DrawableNoopHandle
      ensures lastOptions == [] && lastMouse == Point(0.0, 0.0)
    {
      isOpen := false;
      rect := Rect(0.0, 0.0, 0.0);
      handle := DrawableNoopHandle;
      lastOptions := [];
      lastMouse := Point(0.0, 0.0);
    }

    method IsOpen() returns (open: bool)
      ensures open == isOpen
    {
      open := isOpen;
    }

    /** menuClose: the handle is removed but kept, so closing again removes nothing more. */
    method Close<D>(drawables: Drawables<D>)
      requires drawables.Valid()
      modifies this, drawables
      ensures drawables.Valid()
      ensures !isOpen
      ensures drawables.entries == Without(old(drawables.entries), handle)
      ensures drawables.lastHandle == old(drawables.lastHandle)
      ensures rect == old(rect) && handle == old(handle)
      ensures lastOptions == old(lastOptions) && lastMouse == old(lastMouse)
    {
      isOpen := false;
      drawables.Remove(handle);
    }

    /**
     * menuOpen: closes, then registers a fresh menu drawable and places the
     * rectangle for the options at the mouse.
     */
    method Open<D>(options: seq<MenuOption<A>>, mouse: Point, drawables: Drawables<D>, drawMenu: D)
      requires drawables.Valid()
      modifies this, drawables
      ensures drawables.Valid()
      ensures isOpen
      ensures handle == drawables.lastHandle == old(drawables.lastHandle) + 1
      ensures drawables.entries ==
        Without(old(drawables.entries), old(handle)) + [(handle, Drawable(PriorityMenu, drawMenu, None))]
      ensures rect == MenuRect(|options|, mouse)
      ensures lastOptions == options && lastMouse == mouse
    {
      Close(drawables);
      isOpen := true;
      handle := drawables.Push(Drawable(PriorityMenu, drawMenu, None));
      rect := MenuRect(|options|, mouse);
      lastOptions := options;
      lastMouse := mouse;
    }

    /**
     * menuTryClickOption: the option under the mouse, if any, opens its
     * submenu at the last mouse position or closes the menu and hands back
     * its action; a click elsewhere closes the menu.
     */
    method TryClickOption<D>(mouse: Point, drawables: Drawables<D>, drawMenu: D)
      returns (clicked: bool, action: Option<A>)
      requires drawables.Valid()
      modifies this, drawables
      ensures drawables.Valid()
      ensures clicked <==> HitIndex(old(rect), mouse, |old(lastOptions)|).Some?
      ensures !clicked ==>
        && !isOpen && action == None
        && drawables.entries == Without(old(drawables.entries), old(handle))
        && drawables.lastHandle == old(drawables.lastHandle)
        && rect == old(rect) && handle == old(handle)
        && lastOptions == old(lastOptions) && lastMouse == old(lastMouse)
      ensures clicked && old(lastOptions)[HitIndex(old(rect), mouse, |old(lastOptions)|).value].target.Action? ==>
        && !isOpen
        && action == Some(old(lastOptions)[HitIndex(old(rect), mouse, |old(lastOptions)|).value].target.action)
        && drawables.entries == Without(old(drawables.entries), old(handle))
        && drawables.lastHandle == old(drawables.lastHandle)
        && rect == old(rect) && handle == old(handle)
        && lastOptions == old(lastOptions) && lastMouse == old(lastMouse)
      ensures clicked && old(lastOptions)[HitIndex(old(rect), mouse, |old(lastOptions)|).value].target.Submenu? ==>
        && isOpen && action == None
        && lastOptions == old(lastOptions)[HitIndex(old(rect), mouse, |old(lastOptions)|).value].target.options
        && lastMouse == old(lastMouse)
        && rect == MenuRect(|lastOptions|, old(lastMouse))
        && handle == drawables.lastHandle == old(drawables.lastHandle) + 1
        && drawables.entries ==
          Without(old(drawables.entries), old(handle)) + [(handle, Drawable(PriorityMenu, drawMenu, None))]
    {
      var index := 0;
      while index < |lastOptions|
        invariant 0 <= index <= |lastOptions|
        invariant HitIndex(rect, mouse, index) == None
        invariant rect == old(rect) && lastOptions == old(lastOptions) && handle == old(handle)
        invariant lastMouse == old(lastMouse) && drawables.entries == old(drawables.entries)
        invariant drawables.lastHandle == old(drawables.lastHandle)
      {
        if IsInOption(rect, mouse, index) {
          HitIndexUnique(rect, mouse, |lastOptions|, index);
          var target := lastOptions[index].target;
          if target.Submenu? {
            Open(target.options, lastMouse, drawables, drawMenu);
            action := None;
          } else {
            Close(drawables);
            action := Some(target.action);
          }
          return true, action;
        }
        index := index + 1;
      }
      Close(drawables);
      return false, None;
    }
  }
}
