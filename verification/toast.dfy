/**
 * The toast queue (src/toast.ts): at most one toast fades in at a time; a
 * toast added meanwhile waits in `toastsToAdd` until the running fade-in
 * reaches its last frame. JavaScript Sets keep insertion order and hold each
 * object once, so both sets are sequences without repeats.
 *
 * The queue entries are game events (src/gameEvent.ts) filed under their
 * start frame; the frame callbacks are the `FadeInStep` and `FadeOutStep`
 * methods, selected by the event's `ToastRun`.
 */
module Toast {
  import opened Wrappers
  import opened Frame
  import opened GameEvent
  import opened EventQueue

  const ToastWidth: int := 448
  const ToastHeight: int := 64
  const Padding: int := 24
  const AnimationTime: real := 200.0
  const VisibleTime: real := 5000.0

  class Toast {
    const text: string
    var offset: real
    var opacity: real

    constructor(text: string, offset: real, opacity: real)
      ensures this.text == text && this.offset == offset && this.opacity == opacity
    {
      this.text := text;
      this.offset := offset;
      this.opacity := opacity;
    }
  }

  /** Which callback a queued toast event runs, and on which toast. */
  datatype ToastRun = FadeIn(toast: Toast) | FadeOut(toast: Toast)

  type ToastEvent = GameEvent<ToastRun>

  // -----------------------------------------------------------------------
  // Insertion-ordered sets of objects.

  ghost predicate Distinct(s: seq<Toast>) {
    forall i, j :: 0 <= i < j < |s| ==> s[i] != s[j]
  }

  /** Set.prototype.add: appends an object that is not yet present. */
  function SetAdd(s: seq<Toast>, t: Toast): (r: seq<Toast>)
    ensures Distinct(s) ==> Distinct(r)
    ensures t in r && forall u :: u in s ==> u in r
    ensures forall u :: u in r ==> u in s || u == t
  {
    if t in s then s else s + [t]
  }

  /** Set.prototype.delete: removes the object and keeps the order of the rest. */
  function SetDelete(s: seq<Toast>, t: Toast): (r: seq<Toast>)
    ensures t !in r
    ensures forall u :: u in r ==> u in s && u != t
    ensures forall u :: u in s && u != t ==> u in r
    ensures Distinct(s) ==> Distinct(r)
    decreases |s|
  {
    if s == [] then []
    else if s[0] == t then SetDelete(s[1..], t)
    else
      var rest := SetDelete(s[1..], t);
      assert Distinct(s) ==> s[0] !in s[1..] && Distinct(s[1..]);
      [s[0]] + rest
  }

  // -----------------------------------------------------------------------
  // The schedule and the animation curves.

  /** Fade-in: starts on the next frame and lasts 200 ms. */
  function FadeInEvent(globalFrame: int, toast: Toast): ToastEvent {
    NewGameEvent(globalFrame, 0.0, AnimationTime, FadeIn(toast))
  }

  /** Fade-out: starts 5200 ms after the next frame and lasts 200 ms. */
  function FadeOutEvent(globalFrame: int, toast: Toast): ToastEvent {
    NewGameEvent(globalFrame, AnimationTime + VisibleTime, AnimationTime, FadeOut(toast))
  }

  function Queued(event: ToastEvent): QueuedEvent<ToastEvent> {
    QueuedEvent(event.frame, event)
  }

  /** The two events toastAddObject pushes, inserted one after the other. */
  function WithToastScheduled(events: seq<QueuedEvent<ToastEvent>>, globalFrame: int, toast: Toast): seq<QueuedEvent<ToastEvent>> {
    InsertByFrame(InsertByFrame(events, Queued(FadeInEvent(globalFrame, toast))), Queued(FadeOutEvent(globalFrame, toast)))
  }

  /**
   * Fade-in lasts 12 frames from the next frame; fade-out lasts 12 frames
   * and starts 312 frames after the next frame, long after the fade-in ends.
   */
  lemma ToastSchedule(globalFrame: int, toast: Toast)
    ensures FadeInEvent(globalFrame, toast).frame == globalFrame + 1
    ensures FadeInEvent(globalFrame, toast).totalFrames == 12
    ensures FadeOutEvent(globalFrame, toast).frame == globalFrame + 1 + 312
    ensures FadeOutEvent(globalFrame, toast).totalFrames == 12
    ensures FadeOutEvent(globalFrame, toast).frame >
      FadeInEvent(globalFrame, toast).frame + FadeInEvent(globalFrame, toast).totalFrames
  {
  }

  /** (offset, opacity) of a fading-in toast: both rise with the frame, one apart. */
  function FadeInValues(currentFrame: int, totalFrames: int): (values: (real, real))
    requires totalFrames > 0
    ensures values.0 == values.1 - 1.0
  {
    var progress := currentFrame as real / totalFrames as real;
    (progress - 1.0, progress)
  }

  /** (offset, opacity) of a fading-out toast: it drifts down a third of a slot while vanishing. */
  function FadeOutValues(currentFrame: int, totalFrames: int): (values: (real, real))
    requires totalFrames > 0
    ensures values.0 * 3.0 + values.1 == 1.0
  {
    var progress := currentFrame as real / totalFrames as real;
    (progress / 3.0, 1.0 - progress)
  }

  /**
   * The curves meet the fixed states: a fade-in starts where toastAdd puts a
   * new toast (offset -1, opacity 0) and ends fully shown (0, 1), which is
   * where the fade-out starts; the fade-out ends invisible.
   */
  lemma FadeCurvesMeet(totalFrames: int)
    requires totalFrames > 0
    ensures FadeInValues(0, totalFrames) == (-1.0, 0.0)
    ensures FadeInValues(totalFrames, totalFrames) == (0.0, 1.0)
    ensures FadeOutValues(0, totalFrames) == FadeInValues(totalFrames, totalFrames)
    ensures FadeOutValues(totalFrames, totalFrames).1 == 0.0
  {
    assert totalFrames as real / totalFrames as real == 1.0;
  }

  // -----------------------------------------------------------------------
  // Pending fade-ins.

  /** The toast whose fade-in `e` runs, if it runs one. */
  function FadeInOf(e: QueuedEvent<ToastEvent>): multiset<Toast> {
    if e.run.run.FadeIn? then multiset{e.run.run.toast} else multiset{}
  }

  /** The toasts of the fade-in events waiting in a queue, once per event. */
  function FadeIns(events: seq<QueuedEvent<ToastEvent>>): multiset<Toast>
    decreases |events|
  {
    if events == [] then multiset{} else FadeInOf(events[0]) + FadeIns(events[1..])
  }

  /** Inserting an event adds its fade-in, if any, to those waiting. */
  lemma {:induction false} FadeInsInsert(events: seq<QueuedEvent<ToastEvent>>, e: QueuedEvent<ToastEvent>)
    ensures FadeIns(InsertByFrame(events, e)) == FadeIns(events) + FadeInOf(e)
    decreases |events|
  {
    if events != [] && e.frame >= events[0].frame {
      FadeInsInsert(events[1..], e);
      assert InsertByFrame(events, e)[1..] == InsertByFrame(events[1..], e);
    } else {
      assert ([e] + events)[1..] == events;
    }
  }

  /** Scheduling a toast queues exactly one fade-in, its own. */
  lemma ScheduledFadeIn(events: seq<QueuedEvent<ToastEvent>>, globalFrame: int, toast: Toast)
    ensures FadeIns(WithToastScheduled(events, globalFrame, toast)) == FadeIns(events) + multiset{toast}
  {
    FadeInsInsert(events, Queued(FadeInEvent(globalFrame, toast)));
    FadeInsInsert(InsertByFrame(events, Queued(FadeInEvent(globalFrame, toast))), Queued(FadeOutEvent(globalFrame, toast)));
  }

  /** Popping the earliest event never adds a pending fade-in. */
  lemma FadeInsPop(events: seq<QueuedEvent<ToastEvent>>)
    requires events != []
    ensures FadeIns(events[1..]) == FadeIns(events) - FadeInOf(events[0])
  {
  }

  /** The fade-ins that may be pending: none, or that of the toast fading in. */
  function Running(fading: Option<Toast>): multiset<Toast> {
    if fading.Some? then multiset{fading.value} else multiset{}
  }

  /** Pending fade-ins within `Running(fading)` mean at most one, and only the fading toast's. */
  lemma AtMostOneFadeIn(pending: multiset<Toast>, fading: Option<Toast>)
    requires pending <= Running(fading)
    ensures |pending| <= 1
    ensures forall t :: t in pending ==> fading == Some(t)
  {
    if fading.Some? && pending != multiset{} {
      var t :| t in pending;
      assert multiset{t} <= pending;
      assert pending == multiset{fading.value};
    }
  }

  // -----------------------------------------------------------------------
  // The module state.

  class Toasts {
    var toasts: seq<Toast>
    var toastsToAdd: seq<Toast>
    var isFadingIn: bool
    /** The toast whose fade-in is running, if any: there is never more than one. */
    ghost var fading: Option<Toast>

    /** The sets hold each toast once, and the flag says whether some toast is fading in. */
    ghost predicate Consistent()
      reads this
    {
      && Distinct(toasts)
      && Distinct(toastsToAdd)
      && (isFadingIn <==> fading.Some?)
    }

    /** Besides, toasts wait only while a fade-in is running. */
    ghost predicate Valid()
      reads this
    {
      Consistent() && (toastsToAdd != [] ==> isFadingIn)
    }

    /** The only fade-in waiting in the queue, if any, is that of the toast fading in. */
    ghost predicate Scheduled(queue: EventQueue<ToastEvent>)
      reads this, queue
    {
      FadeIns(queue.events) <= Running(fading)
    }

    constructor()
      ensures Valid()
      ensures toasts == [] && toastsToAdd == [] && !isFadingIn
    {
      toasts := [];
      toastsToAdd := [];
      isFadingIn := false;
      fading := None;
    }

    /** toastAdd: a new toast, hidden and one slot below its place, handed to toastAddObject. */
    method Add(text: string, queue: EventQueue<ToastEvent>, clock: Clock) returns (toast: Toast)
      requires Valid() && queue.Valid() && Scheduled(queue)
      modifies this, queue
      ensures Valid() && queue.Valid() && Scheduled(queue)
      ensures fresh(toast)
      ensures toast.text == text && toast.offset == -1.0 && toast.opacity == 0.0
      ensures old(isFadingIn) ==> toastsToAdd == old(toastsToAdd) + [toast] && toasts == old(toasts)
      ensures !old(isFadingIn) ==> toasts == old(toasts) + [toast] && fading == Some(toast)
    {
      toast := new Toast(text, -1.0, 0.0);
      AddObject(toast, queue, clock);
    }

    /**
     * toastAddObject: while a fade-in runs, the toast waits and nothing is
     * scheduled; otherwise it is shown, becomes the one fading in, and its
     * fade-in and fade-out are queued.
     */
    method AddObject(toast: Toast, queue: EventQueue<ToastEvent>, clock: Clock)
      requires Consistent() && queue.Valid() && Scheduled(queue)
      modifies this, queue
      ensures Valid() && queue.Valid() && Scheduled(queue)
      ensures isFadingIn
      ensures old(isFadingIn) ==>
        && toastsToAdd == SetAdd(old(toastsToAdd), toast)
        && toasts == old(toasts)
        && fading == old(fading)
        && queue.events == old(queue.events)
      ensures !old(isFadingIn) ==>
        && toasts == SetAdd(old(toasts), toast)
        && toastsToAdd == old(toastsToAdd)
        && fading == Some(toast)
        && queue.events == WithToastScheduled(old(queue.events), clock.globalFrame, toast)
        && FadeIns(queue.events) == multiset{toast}
    {
      if isFadingIn {
        toastsToAdd := SetAdd(toastsToAdd, toast);
        return;
      }

      toasts := SetAdd(toasts, toast);
      isFadingIn := true;
      fading := Some(toast);

      var fadeIn := FadeInEvent(clock.globalFrame, toast);
      queue.Push(Queued(fadeIn), clock.globalFrame);
      var fadeOut := FadeOutEvent(clock.globalFrame, toast);
      queue.Push(Queued(fadeOut), clock.globalFrame);
      ScheduledFadeIn(old(queue.events), clock.globalFrame, toast);
    }

    /**
     * The fade-in callback for one frame. On the last frame the fade-in is
     * over, and the oldest waiting toast, if any, is passed to toastAddObject.
     * Only toastAddObject schedules fadeIn(toast), and only for the toast it
     * makes the one fading in; the engine takes the event off the queue
     * before running it, so while it runs its toast has no fade-in waiting.
     */
    method FadeInStep(toast: Toast, currentFrame: int, totalFrames: int,
                      queue: EventQueue<ToastEvent>, clock: Clock)
      requires Valid() && queue.Valid() && Scheduled(queue)
      requires fading == Some(toast) && toast !in FadeIns(queue.events)
      requires totalFrames > 0
      modifies this, toast, queue
      ensures Valid() && queue.Valid() && Scheduled(queue)
      ensures (toast.offset, toast.opacity) == FadeInValues(currentFrame, totalFrames)
      ensures currentFrame != totalFrames ==>
        && toasts == old(toasts) && toastsToAdd == old(toastsToAdd)
        && isFadingIn == old(isFadingIn) && fading == old(fading)
        && queue.events == old(queue.events)
      ensures currentFrame == totalFrames && old(toastsToAdd) == [] ==>
        && !isFadingIn && fading == None
        && toasts == old(toasts) && toastsToAdd == [] && queue.events == old(queue.events)
      ensures currentFrame == totalFrames && old(toastsToAdd) != [] ==>
        && isFadingIn && fading == Some(old(toastsToAdd)[0])
        && toastsToAdd == old(toastsToAdd)[1..]
        && toasts == SetAdd(old(toasts), old(toastsToAdd)[0])
        && queue.events == WithToastScheduled(old(queue.events), clock.globalFrame, old(toastsToAdd)[0])
        && FadeIns(queue.events) == multiset{old(toastsToAdd)[0]}
    {
      var values := FadeInValues(currentFrame, totalFrames);
      toast.offset := values.0;
      toast.opacity := values.1;
      if currentFrame == totalFrames {
        AtMostOneFadeIn(FadeIns(queue.events), fading);
        isFadingIn := false;
        fading := None;
        if |toastsToAdd| > 0 {
          var firstToast := toastsToAdd[0];
          toastsToAdd := toastsToAdd[1..];
          AddObject(firstToast, queue, clock);
        }
      }
    }

    /** The fade-out callback for one frame; on the last frame the toast is deleted. */
    method FadeOutStep(toast: Toast, currentFrame: int, totalFrames: int)
      requires Valid()
      requires totalFrames > 0
      modifies this, toast
      ensures Valid()
      ensures (toast.offset, toast.opacity) == FadeOutValues(currentFrame, totalFrames)
      ensures toastsToAdd == old(toastsToAdd) && isFadingIn == old(isFadingIn) && fading == old(fading)
      ensures currentFrame != totalFrames ==> toasts == old(toasts)
      ensures currentFrame == totalFrames ==> toasts == SetDelete(old(toasts), toast) && toast !in toasts
    {
      var values := FadeOutValues(currentFrame, totalFrames);
      toast.offset := values.0;
      toast.opacity := values.1;
      if currentFrame == totalFrames {
        toasts := SetDelete(toasts, toast);
      }
    }
  }
}
