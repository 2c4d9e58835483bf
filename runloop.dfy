/**
 * The per-frame state logic of the run loop: pausing on key press, focus
 * and frame advance; the gate that lets a paused core run one frame;
 * fast-forward, save-slot and shader-directory keys; the exit decision;
 * the flag cases of `runloop_ctl`; and the sampling of the input state
 * into press, previous and trigger masks.
 */
module Runloop {
  import opened CArith
  import opened InputDriver

  /** A C data pointer that may be NULL. */
  datatype Ptr<T> = Null | To(target: T)

  // ---------------------------------------------------------------------
  // Input masks

  /**
   * A `retro_input_t` state, a 64-bit mask with one bit per bind id, as the
   * set of ids whose bit is set: `BIT64_GET` is membership, `BIT64_SET`
   * adds an id and a zero mask is the empty set.
   */
  type Keys = set<nat>

  /** The keys that went down, `current & ~previous`: pressed now and not before. */
  function Trigger(current: Keys, previous: Keys): (r: Keys)
    ensures forall id :: id in r <==> id in current && id !in previous
  {
    current - previous
  }

  /**
   * `event_cmd_state_t`: the keys pressed this frame, the keys pressed the
   * frame before, and the keys that went down this frame.
   */
  datatype CmdState = CmdState(press: Keys, pressed: Keys, triggered: Keys)

  /**
   * The masks `runloop_iterate` builds from the previous raw sample and the
   * current one. While input is being flushed a non-empty sample is
   * swallowed (only the pause-toggle key is kept, when paused, to wake the
   * core) and flushing goes on; an empty sample ends the flush. The second
   * component is whether flushing goes on.
   */
  function Sample(previous: Keys, current: Keys, flushing: bool, paused: bool, pauseToggle: nat): (CmdState, bool)
  {
    var (press, stillFlushing) :=
      if !flushing then (current, false)
      else if current == {} then (current, false)
      else if paused then ({pauseToggle}, true)
      else ({}, true);
    (CmdState(press, previous, Trigger(press, previous)), stillFlushing)
  }

  /** Outside a flush, a key triggers exactly when it is down now and was up the frame before. */
  lemma TriggerRisingEdge(previous: Keys, current: Keys, paused: bool, pauseToggle: nat, id: nat)
    ensures var cmd := Sample(previous, current, false, paused, pauseToggle).0;
            cmd.press == current && cmd.pressed == previous &&
            (id in cmd.triggered <==> id in current && id !in previous)
  {
  }

  /** A key held across two frames triggers at most on the first. */
  lemma HeldKeyTriggersOnce(first: Keys, second: Keys, paused: bool, pauseToggle: nat, id: nat)
    requires id in first && id in second
    ensures id !in Sample(first, second, false, paused, pauseToggle).0.triggered
  {
  }

  /**
   * A flush swallows a non-empty sample and goes on; while paused it leaves
   * only the pause-toggle key. An empty sample ends it.
   */
  lemma FlushSwallowsInput(previous: Keys, current: Keys, paused: bool, pauseToggle: nat)
    ensures var (cmd, flushing) := Sample(previous, current, true, paused, pauseToggle);
            (flushing <==> current != {}) &&
            (current != {} && !paused ==> cmd.press == {} && cmd.triggered == {}) &&
            (current != {} && paused ==> cmd.press == {pauseToggle})
  {
  }

  // ---------------------------------------------------------------------
  // Pause

  /** The pause commands `runloop_check_pause` can issue. */
  datatype PauseCommand = NoCommand | PauseToggle | Unpause | Pause

  /**
   * The command for a frame: frame advance while running counts as a pause
   * press; a press while focused toggles; gaining focus unpauses; losing it
   * pauses.
   */
  function PauseCommandFor(oldFocus: bool, focus: bool, paused: bool, pausePressed: bool, frameAdvancePressed: bool): PauseCommand
  {
    var pressed := pausePressed || (!paused && frameAdvancePressed);
    if focus && pressed then PauseToggle
    else if focus && !oldFocus then Unpause
    else if !focus && oldFocus then Pause
    else NoCommand
  }

  /** The paused flag after a command runs. */
  function RunPauseCommand(cmd: PauseCommand, paused: bool): bool
  {
    match cmd
    case NoCommand => paused
    case PauseToggle => !paused
    case Unpause => false
    case Pause => true
  }

  /** Frame advance on a running, focused core pauses it. */
  lemma FrameAdvancePauses(oldFocus: bool, pausePressed: bool)
    ensures RunPauseCommand(PauseCommandFor(oldFocus, true, false, pausePressed, true), false)
  {
  }

  /** Frame advance alone on a paused core that kept its focus leaves it paused. */
  lemma FrameAdvanceKeepsPause()
    ensures RunPauseCommand(PauseCommandFor(true, true, true, false, true), true)
  {
  }

  /** Losing focus pauses, whatever else was pressed. */
  lemma FocusLostPauses(paused: bool, pausePressed: bool, frameAdvancePressed: bool)
    ensures RunPauseCommand(PauseCommandFor(true, false, paused, pausePressed, frameAdvancePressed), paused)
  {
  }

  /** Without focus, and without losing it this frame, the keys do nothing. */
  lemma UnfocusedIgnoresKeys(paused: bool, pausePressed: bool, frameAdvancePressed: bool)
    ensures RunPauseCommand(PauseCommandFor(false, false, paused, pausePressed, frameAdvancePressed), paused) == paused
  {
  }

  /** Regaining focus unpauses unless a pause press toggles instead. */
  lemma FocusRegainedUnpauses(paused: bool, pausePressed: bool, frameAdvancePressed: bool)
    requires !pausePressed && !(frameAdvancePressed && !paused)
    ensures !RunPauseCommand(PauseCommandFor(false, true, paused, pausePressed, frameAdvancePressed), paused)
  {
  }

  // ---------------------------------------------------------------------
  // Exit

  /** `runloop_is_frame_count_end`: a frame limit is set and reached. */
  predicate FrameCountEnd(maxFrames: nat, frameCount: nat)
  {
    maxFrames != 0 && frameCount >= maxFrames
  }

  /** The flags `runloop_ctl` stores and reports. */
  datatype Flag = Idle | Slowmotion | Paused | Exec | Shutdown | CoreShutdown

  /** The run loop's module state. */
  class Runloop {
    var paused: bool
    var idle: bool
    var slowmotion: bool
    var exec: bool
    var shutdown: bool
    var coreShutdown: bool
    var maxFrames: nat
    /** The focus `runloop_check_pause` saw last time. */
    var oldFocus: bool
    /** The raw input sample of the previous frame. */
    var lastInput: Keys

    constructor()
      ensures !paused && !idle && !slowmotion && !exec && !shutdown && !coreShutdown
      ensures maxFrames == 0 && oldFocus && lastInput == {}
    {
      paused, idle, slowmotion, exec, shutdown, coreShutdown := false, false, false, false, false, false;
      maxFrames := 0;
      oldFocus := true;
      lastInput := {};
    }

    /** The IS cases of `runloop_ctl`. */
    function Is(f: Flag): bool
      reads this
    {
      match f
      case Idle => idle
      case Slowmotion => slowmotion
      case Paused => paused
      case Exec => exec
      case Shutdown => shutdown
      case CoreShutdown => coreShutdown
    }

    /**
     * SET_IDLE, SET_SLOWMOTION and SET_PAUSED: the flag takes the value the
     * data pointer points at; a NULL pointer fails and changes nothing.
     */
    method SetFromPointer(f: Flag, data: Ptr<bool>) returns (ok: bool)
      requires f == Idle || f == Slowmotion || f == Paused
      modifies this`idle, this`slowmotion, this`paused
      ensures ok == data.To?
      ensures forall g :: Is(g) == if g == f && data.To? then data.target else old(Is(g))
    {
      if data.Null? {
        return false;
      }
      match f {
        case Idle => idle := data.target;
        case Slowmotion => slowmotion := data.target;
        case Paused => paused := data.target;
      }
      ok := true;
    }

    /** SET_EXEC, SET_SHUTDOWN and SET_CORE_SHUTDOWN (`value` true) and their UNSET cases (`value` false). */
    method Store(f: Flag, value: bool)
      requires f == Exec || f == Shutdown || f == CoreShutdown
      modifies this`exec, this`shutdown, this`coreShutdown
      ensures forall g :: Is(g) == if g == f then value else old(Is(g))
    {
      match f {
        case Exec => exec := value;
        case Shutdown => shutdown := value;
        case CoreShutdown => coreShutdown := value;
      }
    }

    /** SET_MAX_FRAMES: the limit takes the pointed-at value; a NULL pointer fails. */
    method SetMaxFrames(data: Ptr<nat>) returns (ok: bool)
      modifies this`maxFrames
      ensures ok == data.To? && maxFrames == if data.To? then data.target else old(maxFrames)
    {
      if data.Null? {
        return false;
      }
      maxFrames := data.target;
      ok := true;
    }

    /** The pause commands' effect on the paused flag (`command_event`). */
    method RunCommand(cmd: PauseCommand)
      modifies this`paused
      ensures paused == RunPauseCommand(cmd, old(paused))
    {
      match cmd {
        case NoCommand =>
        case PauseToggle => paused := !paused;
        case Unpause => paused := false;
        case Pause => paused := true;
      }
    }

    /**
     * `runloop_check_pause`: issues the frame's pause command, remembers the
     * focus, and says whether the paused flag changed.
     */
    method CheckPause(focus: bool, pausePressed: bool, frameAdvancePressed: bool) returns (toggled: bool)
      modifies this`paused, this`oldFocus
      ensures paused == RunPauseCommand(PauseCommandFor(old(oldFocus), focus, old(paused), pausePressed, frameAdvancePressed), old(paused))
      ensures oldFocus == focus
      ensures toggled <==> paused != old(paused)
    {
      var oldIsPaused := paused;
      var pressed := pausePressed || (!oldIsPaused && frameAdvancePressed);
      var cmd := NoCommand;
      if focus && pressed {
        cmd := PauseToggle;
      } else if focus && !oldFocus {
        cmd := Unpause;
      } else if !focus && oldFocus {
        cmd := Pause;
      }
      oldFocus := focus;
      if cmd != NoCommand {
        RunCommand(cmd);
      }
      toggled := paused != oldIsPaused;
    }

    /**
     * `runloop_check_pause_state`: whether the core runs this frame. A
     * running core always does; a paused one only on a frame-advance
     * trigger or while rewind is held. The fullscreen toggle it also
     * handles is not part of this model.
     */
    function CheckPauseState(cmd: Ptr<CmdState>, frameAdvance: nat, rewind: nat): bool
      reads this
    {
      if cmd.Null? then false
      else
        var oneshot := frameAdvance in cmd.target.triggered || rewind in cmd.target.press;
        if !paused then true else oneshot
    }

    /**
     * `runloop_iterate_time_to_exit`. The loop goes on (1) when no exit
     * reason holds. Otherwise exec is cleared and the loop ends (-1), unless
     * the core itself shut down, loading the dummy core is configured and
     * its load could be queued: then shutdown is called off and the loop
     * goes on (1).
     */
    method TimeToExit(quitKeyPressed: bool, videoAlive: bool, bsvMovieEnd: bool, frameCount: nat,
                      loadDummy: bool, dummyQueued: bool) returns (r: int)
      modifies this`exec, this`shutdown, this`coreShutdown
      ensures var reason := old(shutdown) || quitKeyPressed || !videoAlive || bsvMovieEnd ||
                            FrameCountEnd(maxFrames, frameCount) || old(exec);
              var dummy := reason && old(coreShutdown) && loadDummy && dummyQueued;
              (r == 1 <==> !reason || dummy) && (r == 1 || r == -1) &&
              !exec &&
              shutdown == (old(shutdown) && !dummy) && coreShutdown == (old(coreShutdown) && !dummy)
    {
      var timeToExit := shutdown;
      timeToExit := timeToExit || quitKeyPressed;
      timeToExit := timeToExit || !videoAlive;
      timeToExit := timeToExit || bsvMovieEnd;
      timeToExit := timeToExit || (maxFrames != 0 && frameCount >= maxFrames);
      timeToExit := timeToExit || exec;
      if !timeToExit {
        return 1;
      }
      if exec {
        exec := false;
      }
      if !coreShutdown {
        return -1;
      }
      if loadDummy {
        r := LoadDummy(dummyQueued);
        return;
      }
      r := -1;
    }

    /** `runloop_iterate_time_to_exit_load_dummy`: when the load is queued, shutdown is called off. */
    method LoadDummy(queued: bool) returns (r: int)
      modifies this`shutdown, this`coreShutdown
      ensures r == (if queued then 1 else -1)
      ensures shutdown == (old(shutdown) && !queued) && coreShutdown == (old(coreShutdown) && !queued)
    {
      if !queued {
        return -1;
      }
      shutdown := false;
      coreShutdown := false;
      r := 1;
    }

    /**
     * The input lines of `runloop_iterate`: the previous raw sample becomes
     * the "pressed" mask, the new one is remembered raw (before any flush),
     * and the trigger mask is what went down this frame.
     */
    method SampleInput(input: InputDriver, current: Keys, pauseToggle: nat) returns (cmd: CmdState)
      modifies this`lastInput, input`flushingInput
      ensures lastInput == current
      ensures (cmd, input.flushingInput) == Sample(old(lastInput), current, old(input.flushingInput), paused, pauseToggle)
    {
      var previous := lastInput;
      var press := current;
      lastInput := press;
      if input.flushingInput {
        input.flushingInput := false;
        if press != {} {
          press := {};
          if paused {
            press := {pauseToggle};
          }
          input.flushingInput := true;
        }
      }
      cmd := CmdState(press, previous, Trigger(press, previous));
    }
  }

  /** A running core runs every frame it gets masks for, and never without them. */
  lemma RunningCoreRuns(rl: Runloop, cmd: CmdState, frameAdvance: nat, rewind: nat)
    requires !rl.paused
    ensures rl.CheckPauseState(To(cmd), frameAdvance, rewind)
    ensures !rl.CheckPauseState(Null, frameAdvance, rewind)
  {
  }

  /**
   * Frame advance is one-shot: on a paused core, pressing it runs one
   * frame, and holding it into the next frame (without rewind) runs none.
   */
  lemma FrameAdvanceOneShot(rl: Runloop, before: Keys, first: Keys, second: Keys, frameAdvance: nat,
                            rewind: nat, pauseToggle: nat)
    requires rl.paused
    requires frameAdvance !in before && frameAdvance in first && frameAdvance in second
    requires rewind !in second
    ensures rl.CheckPauseState(To(Sample(before, first, false, true, pauseToggle).0), frameAdvance, rewind)
    ensures !rl.CheckPauseState(To(Sample(first, second, false, true, pauseToggle).0), frameAdvance, rewind)
  {
  }

  // ---------------------------------------------------------------------
  // Fast forward

  /**
   * The non-blocking state after `runloop_check_fast_forward_button`: a
   * press toggles it; otherwise a change of the hold key sets it to the
   * hold state; otherwise it stays.
   */
  function FastForward(nonblock: bool, pressed: bool, hold: bool, oldHold: bool): bool
  {
    if pressed then !nonblock
    else if oldHold != hold then hold
    else nonblock
  }

  /**
   * `runloop_check_fast_forward_button` on the input driver's non-blocking
   * flag; `applied` says whether the new state was passed on to the drivers.
   */
  method CheckFastForwardButton(input: InputDriver, pressed: bool, hold: bool, oldHold: bool) returns (applied: bool)
    modifies input`nonblockState
    ensures input.nonblockState == FastForward(old(input.nonblockState), pressed, hold, oldHold)
    ensures applied <==> pressed || oldHold != hold
  {
    if pressed {
      if input.nonblockState {
        input.nonblockState := false;
      } else {
        input.nonblockState := true;
      }
    } else if oldHold != hold {
      if hold {
        input.nonblockState := true;
      } else {
        input.nonblockState := false;
      }
    } else {
      return false;
    }
    applied := true;
  }

  /** Two presses give back the state before them. */
  lemma FastForwardPressTwice(nonblock: bool, hold1: bool, oldHold1: bool, hold2: bool, oldHold2: bool)
    ensures FastForward(FastForward(nonblock, true, hold1, oldHold1), true, hold2, oldHold2) == nonblock
  {
  }

  /** Without a press, a change of the hold key makes the state follow it, and no change leaves it. */
  lemma FastForwardHold(nonblock: bool, hold: bool, oldHold: bool)
    ensures oldHold != hold ==> FastForward(nonblock, false, hold, oldHold) == hold
    ensures oldHold == hold ==> FastForward(nonblock, false, hold, oldHold) == nonblock
  {
  }

  // ---------------------------------------------------------------------
  // Save-state slot

  /** The settings field the slot keys change. */
  class Settings {
    var stateSlot: int

    constructor(slot: int)
      ensures stateSlot == slot
    {
      stateSlot := slot;
    }
  }

  /** The slot after one frame: increase wins over decrease, and decrease stops at 0. */
  function NextSlot(slot: int, increase: bool, decrease: bool): int
  {
    if increase then slot + 1
    else if decrease && slot > 0 then slot - 1
    else slot
  }

  /**
   * `runloop_check_stateslots`; `announced` says whether the new slot was
   * announced, which happens exactly when a key was pressed.
   */
  method CheckStateslots(settings: Settings, increase: bool, decrease: bool) returns (announced: bool)
    modifies settings
    ensures settings.stateSlot == NextSlot(old(settings.stateSlot), increase, decrease)
    ensures announced <==> increase || decrease
  {
    if increase {
      settings.stateSlot := settings.stateSlot + 1;
    } else if decrease {
      if settings.stateSlot > 0 {
        settings.stateSlot := settings.stateSlot - 1;
      }
    } else {
      return false;
    }
    announced := true;
  }

  /** A slot that is not negative never becomes negative, and decrease undoes increase. */
  lemma SlotStaysNonNegative(slot: int, increase: bool, decrease: bool)
    requires slot >= 0
    ensures NextSlot(slot, increase, decrease) >= 0
    ensures NextSlot(NextSlot(slot, true, false), false, true) == slot
  {
  }

  // ---------------------------------------------------------------------
  // Shader directory

  /** `rarch_dir_list_t`: whether a list is loaded, its size and the current index. */
  class ShaderDirList {
    var hasList: bool
    var size: nat
    var ptr: nat

    /** A loaded list is never empty and the index stays inside it. */
    predicate Valid()
      reads this
    {
      hasList ==> 0 < size && ptr < size
    }

    constructor()
      ensures Valid() && !hasList && ptr == 0
    {
      hasList, size, ptr := false, 0, 0;
    }

    /** `shader_dir_free`. */
    method Free()
      modifies this
      ensures Valid() && !hasList && ptr == 0 && size == 0
    {
      hasList, size, ptr := false, 0, 0;
    }

    /**
     * `shader_dir_init` with the configured directory (`configured` false
     * when it is empty) and the size of the listing it yields (`Null` when
     * listing failed). An empty or failed listing frees the list through
     * the deinit command.
     */
    method Init(configured: bool, listing: Ptr<nat>) returns (ok: bool)
      modifies this
      ensures Valid() || !configured
      ensures ok <==> configured && listing.To? && listing.target > 0
      ensures ok ==> hasList && size == listing.target && ptr == 0
      ensures configured && !ok ==> !hasList && ptr == 0
      ensures !configured ==> hasList == old(hasList) && size == old(size) && ptr == old(ptr)
    {
      if !configured {
        return false;
      }
      if listing.Null? || listing.target == 0 {
        Free();
        return false;
      }
      hasList, size := true, listing.target;
      ptr := 0;
      ok := true;
    }

    /**
     * The index step of `runloop_check_shader_dir`; the result says whether
     * the index moved, so that the shader it names goes on to the extension
     * check.
     */
    method CheckShaderDir(pressedNext: bool, pressedPrev: bool) returns (moved: bool)
      requires Valid()
      modifies this`ptr
      ensures Valid()
      ensures moved <==> hasList && (pressedNext || pressedPrev)
      ensures ptr == if moved then (if pressedNext then NextShader(old(ptr), size) else PrevShader(old(ptr), size)) else old(ptr)
    {
      if !hasList {
        return false;
      }
      if pressedNext {
        ptr := (ptr + 1) % size;
      } else if pressedPrev {
        if ptr == 0 {
          ptr := size - 1;
        } else {
          ptr := ptr - 1;
        }
      } else {
        return false;
      }
      moved := true;
    }
  }

  /** The next index, wrapping to the first. */
  function NextShader(ptr: nat, size: nat): (r: nat)
    requires size > 0
    ensures r < size
  {
    (ptr + 1) % size
  }

  /** The previous index, wrapping to the last. */
  function PrevShader(ptr: nat, size: nat): (r: nat)
    requires ptr < size
    ensures r < size
  {
    if ptr == 0 then size - 1 else ptr - 1
  }

  /** Inside the list, next moves one place on and wraps from the last index to the first. */
  lemma NextShaderStep(ptr: nat, size: nat)
    requires ptr < size
    ensures NextShader(ptr, size) == if ptr + 1 == size then 0 else ptr + 1
  {
    if ptr + 1 == size {
      ModUnique(ptr + 1, 1, size, 0);
    } else {
      ModUnique(ptr + 1, 0, size, ptr + 1);
    }
  }

  /** Next and previous undo each other inside the list. */
  lemma NextPrevInverse(ptr: nat, size: nat)
    requires ptr < size
    ensures PrevShader(NextShader(ptr, size), size) == ptr
    ensures NextShader(PrevShader(ptr, size), size) == ptr
  {
    NextShaderStep(ptr, size);
    NextShaderStep(PrevShader(ptr, size), size);
  }

  /** `k` presses of next. */
  function NextShaderTimes(ptr: nat, size: nat, k: nat): (r: nat)
    requires ptr < size
    ensures r < size
  {
    if k == 0 then ptr else NextShader(NextShaderTimes(ptr, size, k - 1), size)
  }

  /** Presses that stay inside the list move one place each. */
  lemma {:induction false} NextShaderWalk(ptr: nat, size: nat, k: nat)
    requires ptr + k < size
    ensures NextShaderTimes(ptr, size, k) == ptr + k
  {
    if k > 0 {
      NextShaderWalk(ptr, size, k - 1);
      NextShaderStep(ptr + k - 1, size);
    }
  }

  /** `a` presses and then `b` more are `a + b` presses. */
  lemma {:induction false} NextShaderCompose(ptr: nat, size: nat, a: nat, b: nat)
    requires ptr < size
    ensures NextShaderTimes(ptr, size, a + b) == NextShaderTimes(NextShaderTimes(ptr, size, a), size, b)
  {
    if b > 0 {
      NextShaderCompose(ptr, size, a, b - 1);
    }
  }

  /** Pressing next once per shader in the list comes back to the same shader. */
  lemma NextShaderCycles(ptr: nat, size: nat)
    requires ptr < size
    ensures NextShaderTimes(ptr, size, size) == ptr
  {
    var toEnd := size - 1 - ptr;
    NextShaderWalk(ptr, size, toEnd);
    NextShaderStep(size - 1, size);
    NextShaderCompose(ptr, size, toEnd, 1);
    NextShaderWalk(0, size, ptr);
    NextShaderCompose(ptr, size, toEnd + 1, ptr);
  }

}
