/** The frame-coalescing reading-progress hook (`useReadingProgress` in
    src/app/actualites/reforme-impots-2026/page.tsx) and the progress bar it
    drives.  The host's animation-frame queue is modelled explicitly: frames are
    requested, run and cancelled by the methods below, each an event the
    browser delivers. */
module ReadingProgress {
  import opened Wrappers

  /** `Math.min(100, Math.max(0, docHeight > 0 ? (scrollTop / docHeight) * 100 : 0))` */
  function Progress(scrollTop: int, docHeight: int): (r: real)
    ensures 0.0 <= r <= 100.0
    ensures docHeight <= 0 ==> r == 0.0
    ensures docHeight > 0 && scrollTop <= 0 ==> r == 0.0
    ensures docHeight > 0 && scrollTop >= docHeight ==> r == 100.0
    ensures docHeight > 0 && 0 <= scrollTop <= docHeight ==>
              r * docHeight as real == scrollTop as real * 100.0
  {
    var readProgress := if docHeight > 0 then (scrollTop as real / docHeight as real) * 100.0 else 0.0;
    var atLeastZero := if readProgress > 0.0 then readProgress else 0.0;
    if atLeastZero < 100.0 then atLeastZero else 100.0
  }

  /** Progress never decreases as the reader scrolls down a page of fixed height. */
  lemma ProgressMonotone(s1: int, s2: int, docHeight: int)
    requires s1 <= s2
    ensures Progress(s1, docHeight) <= Progress(s2, docHeight)
  {
    if docHeight > 0 {
      var d := docHeight as real;
      assert s1 as real / d <= s2 as real / d by {
        assert s1 as real / d * d == s1 as real;
        assert s2 as real / d * d == s2 as real;
      }
    }
  }

  /** The bar's `scaleX`: progress as a fraction of the page. */
  function BarScale(progress: real): (r: real)
    ensures r * 100.0 == progress
    ensures 0.0 <= progress <= 100.0 ==> 0.0 <= r <= 1.0
  {
    progress / 100.0
  }

  /** The glow under the bar is shown past five per cent. */
  predicate GlowShown(progress: real) {
    progress > 5.0
  }

  /** One mounted hook.  `progress` is its React state; `ticking` and `rafId`
      are the effect's closure variables; `listening` says whether `onScroll`
      is registered; `pendingFrame` is the frame the host has queued for
      `updateProgress` and not yet run or cancelled. */
  class ProgressHook {
    var progress: real
    var ticking: bool
    var rafId: Option<nat>
    var listening: bool
    var pendingFrame: Option<nat>

    /** Idle (`!ticking`, nothing queued) or Pending (`ticking`, exactly the frame
        `rafId` queued) while mounted; nothing queued after teardown. */
    ghost predicate Valid()
      reads this
    {
      && 0.0 <= progress <= 100.0
      && (pendingFrame.Some? ==> rafId == pendingFrame && pendingFrame.value > 0)
      && (listening ==> (ticking <==> pendingFrame.Some?))
      && (!listening ==> pendingFrame.None?)
    }

    /** Mount: state starts at 0, the listener is registered and one update
        runs at once with the metrics of that moment. */
    constructor Mount(scrollY: int, scrollHeight: int, innerHeight: int)
      ensures Valid() && listening && !ticking
      ensures rafId.None? && pendingFrame.None?
      ensures progress == Progress(scrollY, scrollHeight - innerHeight)
    {
      progress := 0.0;
      ticking := false;
      rafId := None;
      pendingFrame := None;
      listening := true;
      new;
      UpdateProgress(scrollY, scrollHeight, innerHeight);
    }

    /** `updateProgress`: reads the metrics it is given now, writes the clamped
        progress and clears `ticking`. */
    method UpdateProgress(scrollY: int, scrollHeight: int, innerHeight: int)
      requires listening
      modifies this
      ensures progress == Progress(scrollY, scrollHeight - innerHeight)
      ensures !ticking
      ensures rafId == old(rafId) && listening == old(listening) && pendingFrame == old(pendingFrame)
    {
      var scrollTop := scrollY;
      var docHeight := scrollHeight - innerHeight;
      progress := Progress(scrollTop, docHeight);
      ticking := false;
    }

    /** `onScroll`.  When Idle it asks the host for one frame (whose handle the
        host returns as `handle`, a positive number) and becomes Pending; when
        Pending it does nothing at all.  `requested` says whether a frame was
        asked for. */
    method OnScroll(handle: nat) returns (requested: bool)
      requires Valid() && listening
      requires handle > 0
      modifies this
      ensures Valid() && listening && ticking
      ensures requested <==> !old(ticking)
      ensures !old(ticking) ==> rafId == Some(handle) && pendingFrame == Some(handle)
      ensures old(ticking) ==> rafId == old(rafId) && pendingFrame == old(pendingFrame)
      ensures progress == old(progress)
    {
      requested := !ticking;
      if !ticking {
        rafId := Some(handle);
        pendingFrame := Some(handle);
        ticking := true;
      }
    }

    /** The host runs the queued frame: the metrics are those of the moment the
        frame runs, not of the scroll events that led to it. */
    method RunFrame(scrollY: int, scrollHeight: int, innerHeight: int)
      requires Valid() && pendingFrame.Some?
      modifies this
      ensures Valid() && !ticking && pendingFrame.None?
      ensures progress == Progress(scrollY, scrollHeight - innerHeight)
      ensures rafId == old(rafId) && listening == old(listening)
    {
      pendingFrame := None;
      UpdateProgress(scrollY, scrollHeight, innerHeight);
    }

    /** Teardown: the listener is removed and, if a frame was ever requested,
        `cancelAnimationFrame(rafId)` drops it from the queue (a no-op when
        it has already run).  Afterwards nothing can change `progress`. */
    method Unmount() returns (cancelled: bool)
      requires Valid() && listening
      modifies this
      ensures Valid() && !listening && pendingFrame.None?
      ensures cancelled <==> old(rafId).Some? && old(rafId).value != 0
      ensures progress == old(progress) && rafId == old(rafId) && ticking == old(ticking)
    {
      listening := false;
      cancelled := false;
      if rafId.Some? && rafId.value != 0 {
        cancelled := true;
        if pendingFrame == rafId {
          pendingFrame := None;
        }
      }
    }
  }

  /** Ten scroll events in one frame interval request one frame, and that
      frame shows the metrics current when it runs, not those of any scroll. */
  method ScrollBurstCoalesces(handles: seq<nat>, scrollY: int, scrollHeight: int, innerHeight: int)
    returns (framesRequested: nat, shown: real)
    requires |handles| == 10 && forall i :: 0 <= i < |handles| ==> handles[i] > 0
    ensures framesRequested == 1
    ensures shown == Progress(scrollY, scrollHeight - innerHeight)
  {
    var hook := new ProgressHook.Mount(0, scrollHeight, innerHeight);
    framesRequested := 0;
    var k := 0;
    while k < |handles|
      invariant 0 <= k <= |handles|
      invariant hook.Valid() && hook.listening
      invariant k > 0 ==> hook.ticking && hook.pendingFrame == Some(handles[0])
      invariant k == 0 ==> !hook.ticking
      invariant framesRequested == if k == 0 then 0 else 1
    {
      var requested := hook.OnScroll(handles[k]);
      if requested {
        framesRequested := framesRequested + 1;
      }
      k := k + 1;
    }
    hook.RunFrame(scrollY, scrollHeight, innerHeight);
    shown := hook.progress;
  }
}
