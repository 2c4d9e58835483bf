/**
 * The input driver front end's own state logic: the analog-stick-to-D-pad
 * overlay on a bind list, pointer coordinate scaling, the turbo bitmask,
 * the hotkey-blocking decision and the reset on destroy.
 */
module InputDriver {
  import opened CArith
  import opened VideoDriver

  // Device and bind indices of the libretro API and of the bind list.
  const MAX_USERS: nat := 16
  const RETRO_DEVICE_JOYPAD: nat := 1
  const JOYPAD_UP: nat := 4
  const JOYPAD_DOWN: nat := 5
  const JOYPAD_LEFT: nat := 6
  const JOYPAD_RIGHT: nat := 7
  const ANALOG_LEFT_X_PLUS: nat := 16
  const ANALOG_RIGHT_X_PLUS: nat := 20
  const ANALOG_RIGHT_Y_MINUS: nat := 23

  // Analog D-pad modes.
  const ANALOG_DPAD_NONE: nat := 0
  const ANALOG_DPAD_LSTICK: nat := 1
  const ANALOG_DPAD_RSTICK: nat := 2

  // "Nothing bound" values of a bind's key, button and axis.
  const RETROK_UNKNOWN: int := 0
  const NO_BTN: int := 0xFFFF
  const AXIS_NONE: int := 0xFFFF_FFFF

  /** The fields of `struct retro_keybind` this logic reads and writes. */
  datatype Keybind = Keybind(key: int, joykey: int, joyaxis: int, origJoyaxis: int)

  // ---------------------------------------------------------------------
  // Analog stick as D-pad

  predicate IsDpad(i: nat)
  {
    JOYPAD_UP <= i <= JOYPAD_RIGHT
  }

  /** The first of a stick's four analog binds: X plus, X minus, Y plus, Y minus. */
  function StickBase(mode: nat): nat
  {
    if mode == ANALOG_DPAD_LSTICK then ANALOG_LEFT_X_PLUS else ANALOG_RIGHT_X_PLUS
  }

  /**
   * A stick is usable only when its plus and minus binds differ on both
   * axes, and only the two stick modes use one.
   */
  predicate Inherits(binds: seq<Keybind>, mode: nat)
    requires |binds| > ANALOG_RIGHT_Y_MINUS
  {
    (mode == ANALOG_DPAD_LSTICK || mode == ANALOG_DPAD_RSTICK) &&
    var base := StickBase(mode);
    !(binds[base].joyaxis == binds[base + 1].joyaxis || binds[base + 2].joyaxis == binds[base + 3].joyaxis)
  }

  /**
   * The bind list after `input_push_analog_dpad`: each D-pad bind saves its
   * axis, and takes the stick's axes counting down from Y minus when the
   * stick is usable.
   */
  function Pushed(binds: seq<Keybind>, mode: nat): (r: seq<Keybind>)
    requires |binds| > ANALOG_RIGHT_Y_MINUS
    ensures |r| == |binds|
  {
    var inherit := Inherits(binds, mode);
    var base := StickBase(mode);
    seq(|binds|, i requires 0 <= i < |binds| =>
      if IsDpad(i) then
        binds[i].(origJoyaxis := binds[i].joyaxis,
                  joyaxis := if inherit then binds[base + 3 - (i - JOYPAD_UP)].joyaxis else binds[i].joyaxis)
      else binds[i])
  }

  /** The bind list after `input_pop_analog_dpad`: each D-pad bind takes back its saved axis. */
  function Popped(binds: seq<Keybind>): (r: seq<Keybind>)
    ensures |r| == |binds|
  {
    seq(|binds|, i requires 0 <= i < |binds| => if IsDpad(i) then binds[i].(joyaxis := binds[i].origJoyaxis) else binds[i])
  }

  /** `input_push_analog_dpad` on a bind list, in place. */
  method PushAnalogDpad(binds: array<Keybind>, mode: nat)
    requires binds.Length > ANALOG_RIGHT_Y_MINUS
    modifies binds
    ensures binds[..] == Pushed(old(binds[..]), mode)
  {
    ghost var b := binds[..];
    for i := JOYPAD_UP to JOYPAD_RIGHT + 1
      invariant forall k :: 0 <= k < binds.Length ==>
                  binds[k] == if JOYPAD_UP <= k < i then b[k].(origJoyaxis := b[k].joyaxis) else b[k]
    {
      binds[i] := binds[i].(origJoyaxis := binds[i].joyaxis);
    }
    var j := 0;
    var inherit := false;
    if mode == ANALOG_DPAD_LSTICK {
      if !(binds[ANALOG_LEFT_X_PLUS].joyaxis == binds[ANALOG_LEFT_X_PLUS + 1].joyaxis ||
           binds[ANALOG_LEFT_X_PLUS + 2].joyaxis == binds[ANALOG_LEFT_X_PLUS + 3].joyaxis) {
        j := ANALOG_LEFT_X_PLUS + 3;
        inherit := true;
      }
    } else if mode == ANALOG_DPAD_RSTICK {
      if !(binds[ANALOG_RIGHT_X_PLUS].joyaxis == binds[ANALOG_RIGHT_X_PLUS + 1].joyaxis ||
           binds[ANALOG_RIGHT_X_PLUS + 2].joyaxis == binds[ANALOG_RIGHT_X_PLUS + 3].joyaxis) {
        j := ANALOG_RIGHT_X_PLUS + 3;
        inherit := true;
      }
    }
    assert inherit == Inherits(b, mode);
    if !inherit {
      return;
    }
    for i := JOYPAD_UP to JOYPAD_RIGHT + 1
      invariant j == StickBase(mode) + 3 - (i - JOYPAD_UP)
      invariant forall k :: 0 <= k < binds.Length ==>
                  binds[k] == if JOYPAD_UP <= k < i then Pushed(b, mode)[k]
                              else if IsDpad(k) then b[k].(origJoyaxis := b[k].joyaxis) else b[k]
    {
      binds[i] := binds[i].(joyaxis := binds[j].joyaxis);
      j := j - 1;
    }
  }

  /** `input_pop_analog_dpad` on a bind list, in place. */
  method PopAnalogDpad(binds: array<Keybind>)
    modifies binds
    ensures binds[..] == Popped(old(binds[..]))
  {
    ghost var b := binds[..];
    var i := JOYPAD_UP;
    while i <= JOYPAD_RIGHT && i < binds.Length
      invariant JOYPAD_UP <= i
      invariant forall k :: 0 <= k < binds.Length ==> binds[k] == if JOYPAD_UP <= k < i then Popped(b)[k] else b[k]
    {
      binds[i] := binds[i].(joyaxis := binds[i].origJoyaxis);
      i := i + 1;
    }
  }

  /**
   * Pushing and then popping gives every bind its axis back; the only
   * trace left is the axis the D-pad binds saved.
   */
  lemma PushPopRestores(binds: seq<Keybind>, mode: nat)
    requires |binds| > ANALOG_RIGHT_Y_MINUS
    ensures var r := Popped(Pushed(binds, mode));
            forall i :: 0 <= i < |binds| ==>
              r[i] == if IsDpad(i) then binds[i].(origJoyaxis := binds[i].joyaxis) else binds[i]
  {
  }

  /** A usable stick drives the D-pad: up from Y minus, down from Y plus, left from X minus, right from X plus. */
  lemma PushedStickDirections(binds: seq<Keybind>, mode: nat)
    requires |binds| > ANALOG_RIGHT_Y_MINUS && Inherits(binds, mode)
    ensures var r := Pushed(binds, mode);
            var base := StickBase(mode);
            r[JOYPAD_UP].joyaxis == binds[base + 3].joyaxis && r[JOYPAD_DOWN].joyaxis == binds[base + 2].joyaxis &&
            r[JOYPAD_LEFT].joyaxis == binds[base + 1].joyaxis && r[JOYPAD_RIGHT].joyaxis == binds[base].joyaxis
  {
  }

  /** Without a usable stick no axis changes. */
  lemma PushedWithoutStick(binds: seq<Keybind>, mode: nat)
    requires |binds| > ANALOG_RIGHT_Y_MINUS && !Inherits(binds, mode)
    ensures forall i :: 0 <= i < |binds| ==> Pushed(binds, mode)[i].joyaxis == binds[i].joyaxis
  {
  }

  // ---------------------------------------------------------------------
  // Pointer coordinates

  const AXIS_MAX: int := 0x7fff
  const OUT_OF_BOUNDS: int := -0x8000

  /**
   * One axis of `input_translate_coord_viewport`: `m` in `0..dim` spread
   * over `-0x7fff..0x7fff` with C's truncating division; anything outside
   * that range reads as -0x8000.
   */
  function ScaleAxis(m: int, dim: nat): (r: int)
    requires dim > 0
    ensures OUT_OF_BOUNDS <= r <= AXIS_MAX
  {
    var s := Quot(2 * m * AXIS_MAX, dim) - AXIS_MAX;
    if s < -AXIS_MAX || s > AXIS_MAX then OUT_OF_BOUNDS else s
  }

  datatype Translation = NoViewport | Translated(x: int, y: int, screenX: int, screenY: int)

  /**
   * `input_translate_coord_viewport`: with the viewport the video driver
   * reports (`available` false when it reports none), the pointer scaled
   * to the whole screen and, after subtracting the viewport origin, to the
   * viewport.
   */
  function TranslateCoordViewport(mouseX: int, mouseY: int, available: bool, vp: ViewportInfo): (r: Translation)
    requires available ==> vp.width > 0 && vp.height > 0 && vp.fullWidth > 0 && vp.fullHeight > 0
    ensures r.Translated? <==> available
  {
    if !available then NoViewport
    else
      Translated(ScaleAxis(mouseX - vp.x, vp.width), ScaleAxis(mouseY - vp.y, vp.height),
                 ScaleAxis(mouseX, vp.fullWidth), ScaleAxis(mouseY, vp.fullHeight))
  }

  lemma DivAtLeast(a: nat, d: nat, k: nat)
    requires d > 0
    ensures a / d >= k <==> a >= k * d
  {
    var q := a / d;
    assert a == q * d + a % d;
    if q >= k {
      MulMonotone(k, q, d);
    } else {
      MulMonotone(q + 1, k, d);
      assert (q + 1) * d == q * d + d;
    }
  }

  /** The edges of the range map to the edges of the axis, and nothing in between is out of bounds. */
  lemma ScaleAxisInside(m: int, dim: nat)
    requires dim > 0 && 0 <= m <= dim
    ensures -AXIS_MAX <= ScaleAxis(m, dim)
    ensures m == 0 ==> ScaleAxis(m, dim) == -AXIS_MAX
    ensures m == dim ==> ScaleAxis(m, dim) == AXIS_MAX
  {
    var a := 2 * m * AXIS_MAX;
    QuotNonNegative(a, dim);
    DivAtLeast(a, dim, 2 * AXIS_MAX + 1);
    MulMonotone(m, dim, 2 * AXIS_MAX);
    if m == dim {
      DivAtLeast(a, dim, 2 * AXIS_MAX);
    }
  }

  /**
   * Exactly which pointer positions read as out of bounds: because C
   * truncates toward zero, a position just left of the range is still
   * inside until it is a full step away.
   */
  lemma ScaleAxisOutOfBounds(m: int, dim: nat)
    requires dim > 0
    ensures ScaleAxis(m, dim) == OUT_OF_BOUNDS <==>
              (m < 0 && 2 * -m * AXIS_MAX >= dim) || (m > 0 && 2 * m * AXIS_MAX >= (2 * AXIS_MAX + 1) * dim)
  {
    if m >= 0 {
      QuotNonNegative(2 * m * AXIS_MAX, dim);
      DivAtLeast(2 * m * AXIS_MAX, dim, 2 * AXIS_MAX + 1);
    } else {
      QuotNegate(2 * -m * AXIS_MAX, dim);
      QuotNonNegative(2 * -m * AXIS_MAX, dim);
      DivAtLeast(2 * -m * AXIS_MAX, dim, 1);
    }
  }

  /** One pixel left of a wide screen still reads as the left edge, not as out of bounds. */
  lemma TruncationKeepsNearMisses()
    ensures ScaleAxis(-1, 0x10000) == -AXIS_MAX
  {
    ScaleAxisOutOfBounds(-1, 0x10000);
  }

  /** A pointer inside the viewport gets viewport coordinates that are in range. */
  lemma PointerInsideViewport(mouseX: int, mouseY: int, vp: ViewportInfo)
    requires vp.width > 0 && vp.height > 0 && vp.fullWidth > 0 && vp.fullHeight > 0
    requires vp.x <= mouseX <= vp.x + vp.width && vp.y <= mouseY <= vp.y + vp.height
    ensures var r := TranslateCoordViewport(mouseX, mouseY, true, vp);
            -AXIS_MAX <= r.x <= AXIS_MAX && -AXIS_MAX <= r.y <= AXIS_MAX
  {
    ScaleAxisInside(mouseX - vp.x, vp.width);
    ScaleAxisInside(mouseY - vp.y, vp.height);
  }

  // ---------------------------------------------------------------------
  // Turbo

  /** The bit `1 << id` stored into the 16-bit turbo mask; ids past 15 fall outside it. */
  function TurboBit(id: nat): bv16
    requires id < 32
  {
    if id < 16 then (1 as bv16) << id else 0
  }

  /** Turbo applies to joypad buttons other than the D-pad. */
  predicate TurboApplies(device: nat, id: nat)
  {
    device == RETRO_DEVICE_JOYPAD && (id < JOYPAD_UP || id > JOYPAD_RIGHT)
  }

  /**
   * The mask after one poll of button `id`: pressed while the turbo button
   * is held arms it, released disarms it, pressed otherwise keeps it.
   */
  function TurboMaskAfter(mask: bv16, id: nat, res: int, frameEnable: bool): bv16
    requires id < 32
  {
    if res != 0 && frameEnable then mask | TurboBit(id)
    else if res == 0 then mask & !TurboBit(id)
    else mask
  }

  /**
   * An armed button reads as pressed only during the first `duty` frames of
   * every `period`; the period is divided by only for an armed, pressed one.
   */
  function TurboOutput(mask: bv16, id: nat, res: int, count: nat, period: nat, duty: nat): int
    requires id < 32 && (mask & TurboBit(id) != 0 && res != 0 ==> period > 0)
  {
    if mask & TurboBit(id) != 0 then (if res != 0 && count % period < duty then 1 else 0) else res
  }

  /** A released button disarms and reads as released. */
  lemma TurboRelease(mask: bv16, id: nat, frameEnable: bool, count: nat, period: nat, duty: nat)
    requires id < 32
    ensures var m := TurboMaskAfter(mask, id, 0, frameEnable);
            m & TurboBit(id) == 0 && TurboOutput(m, id, 0, count, period, duty) == 0
  {
  }

  /** A button pressed with the turbo button held pulses with the duty cycle. */
  lemma TurboPulse(mask: bv16, id: nat, res: int, count: nat, period: nat, duty: nat)
    requires id < 16 && res != 0 && period > 0
    ensures var m := TurboMaskAfter(mask, id, res, true);
            m & TurboBit(id) != 0 && TurboOutput(m, id, res, count, period, duty) == (if count % period < duty then 1 else 0)
  {
  }

  /** A button that was never armed and is pressed without the turbo button passes through unchanged. */
  lemma TurboPassThrough(mask: bv16, id: nat, res: int, count: nat, period: nat, duty: nat)
    requires id < 32 && res != 0 && mask & TurboBit(id) == 0
    ensures TurboMaskAfter(mask, id, res, false) == mask
    ensures TurboOutput(TurboMaskAfter(mask, id, res, false), id, res, count, period, duty) == res
  {
  }

  /** The arm/disarm step of the turbo block on one port's mask. */
  method UpdateTurboMask(mask: bv16, id: nat, res: int, frameEnable: bool) returns (m: bv16)
    requires id < 32
    ensures m == TurboMaskAfter(mask, id, res, frameEnable)
  {
    m := mask;
    if res != 0 && frameEnable {
      m := m | TurboBit(id);
    } else if res == 0 {
      m := m & !TurboBit(id);
    }
  }

  /** The read step of the turbo block: an armed button follows the duty cycle. */
  method ReadTurbo(mask: bv16, id: nat, res: int, count: nat, period: nat, duty: nat) returns (out: int)
    requires id < 32 && (mask & TurboBit(id) != 0 && res != 0 ==> period > 0)
    ensures out == TurboOutput(mask, id, res, count, period, duty)
  {
    out := res;
    if mask & TurboBit(id) != 0 {
      out := if res != 0 && count % period < duty then 1 else 0;
    }
  }

  // ---------------------------------------------------------------------
  // Hotkeys

  /** The enable-hotkey bind counts as bound when any key, button or axis is set in either bind list. */
  predicate HotkeyBound(bind: Keybind, autoconf: Keybind)
  {
    bind.key != RETROK_UNKNOWN || bind.joykey != NO_BTN || bind.joyaxis != AXIS_NONE ||
    autoconf.key != RETROK_UNKNOWN || autoconf.joykey != NO_BTN || autoconf.joyaxis != AXIS_NONE
  }

  /**
   * The input driver's module flags and turbo state.
   */
  class InputDriver {
    var blockHotkey: bool
    var blockLibretroInput: bool
    var oskEnabled: bool
    var nonblockState: bool
    var flushingInput: bool
    var dataOwn: bool
    var turboFrameEnable: seq<bool>
    var turboEnable: seq<bv16>
    var turboCount: nat
    var hasCurrentInput: bool

    predicate Valid()
      reads this
    {
      |turboFrameEnable| == MAX_USERS && |turboEnable| == MAX_USERS
    }

    constructor()
      ensures Valid() && !blockHotkey && !blockLibretroInput && !oskEnabled && !nonblockState
      ensures !flushingInput && !dataOwn && !hasCurrentInput && turboCount == 0
      ensures turboFrameEnable == seq(MAX_USERS, _ => false) && turboEnable == seq(MAX_USERS, _ => 0)
    {
      blockHotkey, blockLibretroInput, oskEnabled, nonblockState := false, false, false, false;
      flushingInput, dataOwn, hasCurrentInput := false, false, false;
      turboFrameEnable := seq(MAX_USERS, _ => false);
      turboEnable := seq(MAX_USERS, _ => 0);
      turboCount := 0;
    }

    /**
     * The turbo block of `input_state` for a button read as `res` (what the
     * driver, overlay and remote gamepad reported for it).
     */
    method TurboState(port: nat, device: nat, id: nat, res: int, period: nat, duty: nat) returns (out: int)
      requires Valid() && port < MAX_USERS && (TurboApplies(device, id) ==> id < 32)
      requires TurboApplies(device, id) ==>
                 var armed := TurboMaskAfter(turboEnable[port], id, res, turboFrameEnable[port]) & TurboBit(id) != 0;
                 res != 0 && armed ==> period > 0
      modifies this`turboEnable
      ensures Valid()
      ensures TurboApplies(device, id) ==>
                turboEnable == old(turboEnable)[port := TurboMaskAfter(old(turboEnable[port]), id, res, turboFrameEnable[port])] &&
                out == TurboOutput(turboEnable[port], id, res, turboCount, period, duty)
      ensures !TurboApplies(device, id) ==> turboEnable == old(turboEnable) && out == res
    {
      out := res;
      if device == RETRO_DEVICE_JOYPAD && (id < JOYPAD_UP || id > JOYPAD_RIGHT) {
        var mask := UpdateTurboMask(turboEnable[port], id, res, turboFrameEnable[port]);
        turboEnable := turboEnable[port := mask];
        out := ReadTurbo(mask, id, res, turboCount, period, duty);
      }
    }

    /**
     * `check_input_driver_block_hotkey`: hotkeys end up blocked when the
     * keyboard mapping is blocked or an enable-hotkey bind exists and is not
     * held; the result says whether it is bound and held.
     */
    method CheckBlockHotkey(kbMappingBlocked: bool, bind: Keybind, autoconf: Keybind, enableHotkey: bool)
      returns (r: bool)
      modifies this`blockHotkey
      ensures blockHotkey == (kbMappingBlocked || (HotkeyBound(bind, autoconf) && !enableHotkey))
      ensures r == (HotkeyBound(bind, autoconf) && enableHotkey)
    {
      blockHotkey := kbMappingBlocked;
      var useHotkeyEnable := bind.key != RETROK_UNKNOWN || bind.joykey != NO_BTN || bind.joyaxis != AXIS_NONE ||
                             autoconf.key != RETROK_UNKNOWN || autoconf.joykey != NO_BTN || autoconf.joyaxis != AXIS_NONE;
      blockHotkey := kbMappingBlocked || (useHotkeyEnable && !enableHotkey);
      r := useHotkeyEnable && enableHotkey;
    }

    /**
     * `input_driver_destroy`: every block, non-block, flushing and ownership
     * flag cleared, the turbo state zeroed and no current driver. The
     * on-screen keyboard flag is not among them.
     */
    method Destroy()
      modifies this
      ensures Valid() && !blockHotkey && !blockLibretroInput && !nonblockState && !flushingInput && !dataOwn
      ensures turboFrameEnable == seq(MAX_USERS, _ => false) && turboEnable == seq(MAX_USERS, _ => 0) && turboCount == 0
      ensures !hasCurrentInput && oskEnabled == old(oskEnabled)
    {
      blockHotkey, blockLibretroInput, nonblockState, flushingInput, dataOwn := false, false, false, false, false;
      turboFrameEnable := seq(MAX_USERS, _ => false);
      turboEnable := seq(MAX_USERS, _ => 0);
      turboCount := 0;
      hasCurrentInput := false;
    }
  }

  /**
   * With the enable-hotkey bind held, hotkeys are unblocked (unless the
   * keyboard mapping blocks them) and the caller blocks the core's input
   * instead; with nothing bound, hotkeys are always allowed and the core's
   * input never blocked.
   */
  lemma HotkeyDecision(kbMappingBlocked: bool, bound: bool, enableHotkey: bool)
    ensures var blocked := kbMappingBlocked || (bound && !enableHotkey);
            var r := bound && enableHotkey;
            (r ==> (blocked <==> kbMappingBlocked)) && (!bound ==> !r && (blocked <==> kbMappingBlocked)) &&
            (bound && !enableHotkey ==> blocked && !r)
  {
  }
}
