/**
 * The polling loop of `Worker.ExecuteAsync`: cache the catalog, register the
 * bot's commands, then fetch batches of updates from an offset that starts at
 * 0 and moves to `update.Id + 1` after each update is processed. An exception
 * anywhere in an iteration (from GetUpdates or from processing an update)
 * abandons the rest of that batch and leaves the offset where it was, so the
 * next GetUpdates asks again from there.
 *
 * The environment is given as data: the results of the successive GetUpdates
 * calls until the worker is cancelled (`fetches`), and the Bot API's verdict
 * on the n-th outbound call of the session (`transport(n)`: false means that
 * call threw).
 */
module Polling {
  import opened Ints
  import opened Telegram
  import opened Models
  import Bot

  /** The command list registered with SetMyCommands before polling starts. */
  const Commands: seq<BotCommand> := [
    BotCommand("start", "Start the bot"),
    BotCommand("refer", "Get your referral link"),
    BotCommand("help", "Get help with the bot")
  ]

  /** One outbound Bot API call and whether it went through (false: it threw). */
  datatype Call = Call(action: Action, accepted: bool)

  /** The result of one GetUpdates call: a batch, or an exception (network error, timeout, rate limit). */
  datatype Fetch = Fetched(updates: seq<Update>) | FetchFailed

  predicate AllAccepted(calls: seq<Call>) {
    forall i :: 0 <= i < |calls| ==> calls[i].accepted
  }

  /**
   * Making the calls `actions` one after the other, the first of them being
   * call number `n` of the session: the first refused call throws, and the
   * calls after it are never made.
   */
  function Issue(actions: seq<Action>, transport: nat -> bool, n: nat): (r: seq<Call>)
    ensures |r| <= |actions|
    ensures forall i :: 0 <= i < |r| ==> r[i].action == actions[i] && r[i].accepted == transport(n + i)
    ensures forall i :: 0 <= i < |r| - 1 ==> r[i].accepted
    ensures |r| < |actions| ==> 0 < |r| && !r[|r| - 1].accepted
    decreases |actions|
  {
    if actions == [] then []
    else if !transport(n) then [Call(actions[0], false)]
    else
      var rest := Issue(actions[1..], transport, n + 1);
      var r := [Call(actions[0], true)] + rest;
      assert forall i :: 0 < i < |r| ==> r[i] == rest[i - 1];
      r
  }

  /** What `await ProcessUpdate(update)` did: the calls it made, and whether it returned rather than threw. */
  datatype Handled = Handled(calls: seq<Call>, returned: bool)

  /**
   * `await ProcessUpdate(u)` with its first call numbered `n`: it returns
   * exactly when the handler does not throw and every call it makes goes
   * through, and then it has made all of them.
   */
  function Handle(process: Update -> Bot.Outcome, u: Update, transport: nat -> bool, n: nat): (h: Handled)
    ensures h.calls == Issue(process(u).actions, transport, n)
    ensures h.returned <==> !process(u).throws && AllAccepted(h.calls)
    ensures h.returned ==> |h.calls| == |process(u).actions|
    ensures !h.returned ==>
      process(u).throws || (0 < |h.calls| && !h.calls[|h.calls| - 1].accepted)
  {
    var o := process(u);
    var calls := Issue(o.actions, transport, n);
    Handled(calls, !o.throws && AllAccepted(calls))
  }

  /** The state the loop carries: the offset, and every Bot API call made so far. */
  datatype Progress = Progress(offset: int32, calls: seq<Call>)

  /** Where the `foreach` over a batch ended, and how many of its updates were processed. */
  datatype BatchEnd = BatchEnd(progress: Progress, processed: nat)

  /**
   * The `foreach` over one batch: updates are processed in the order they
   * came, the offset moves past each one that was processed, and the first
   * exception ends the batch with the offset still at the last processed
   * update (or where the batch started).
   */
  function RunBatch(process: Update -> Bot.Outcome, p: Progress, updates: seq<Update>, transport: nat -> bool): (r: BatchEnd)
    ensures r.processed <= |updates|
    ensures r.progress.offset == if r.processed == 0 then p.offset else Increment(updates[r.processed - 1].id)
    ensures p.calls <= r.progress.calls
    ensures forall i :: 0 <= i < r.processed ==> !process(updates[i]).throws
    decreases |updates|
  {
    if updates == [] then
      BatchEnd(p, 0)
    else
      var prev := RunBatch(process, p, updates[..|updates| - 1], transport);
      if prev.processed < |updates| - 1 then
        prev
      else
        var u := updates[|updates| - 1];
        var h := Handle(process, u, transport, |prev.progress.calls|);
        var calls := prev.progress.calls + h.calls;
        if h.returned then
          BatchEnd(Progress(Increment(u.id), calls), |updates|)
        else
          BatchEnd(Progress(prev.progress.offset, calls), |updates| - 1)
  }

  /** Extending a batch that was processed to its end by one more update. */
  lemma RunBatchStep(process: Update -> Bot.Outcome, p: Progress, updates: seq<Update>, j: nat, transport: nat -> bool)
    requires j < |updates|
    requires RunBatch(process, p, updates[..j], transport).processed == j
    ensures var prev := RunBatch(process, p, updates[..j], transport).progress;
      var h := Handle(process, updates[j], transport, |prev.calls|);
      RunBatch(process, p, updates[..j + 1], transport) ==
        if h.returned then BatchEnd(Progress(Increment(updates[j].id), prev.calls + h.calls), j + 1)
        else BatchEnd(Progress(prev.offset, prev.calls + h.calls), j)
  {
    assert updates[..j + 1][..j] == updates[..j];
  }

  /** A batch processed to its end made every one of its calls successfully. */
  lemma {:induction false} CompletedBatchAccepted(process: Update -> Bot.Outcome, p: Progress, updates: seq<Update>, transport: nat -> bool)
    ensures var r := RunBatch(process, p, updates, transport);
      r.processed == |updates| ==>
        forall i :: |p.calls| <= i < |r.progress.calls| ==> r.progress.calls[i].accepted
    decreases |updates|
  {
    if updates != [] {
      var front := updates[..|updates| - 1];
      var prev := RunBatch(process, p, front, transport);
      CompletedBatchAccepted(process, p, front, transport);
    }
  }

  /**
   * A batch that stopped early stopped because of the first unprocessed
   * update: its handler threw, or the last call it made was refused.
   */
  lemma {:induction false} StoppedBatchReason(process: Update -> Bot.Outcome, p: Progress, updates: seq<Update>, transport: nat -> bool)
    ensures var r := RunBatch(process, p, updates, transport);
      r.processed < |updates| ==>
        process(updates[r.processed]).throws ||
        (|p.calls| < |r.progress.calls| && !r.progress.calls[|r.progress.calls| - 1].accepted)
    decreases |updates|
  {
    if updates != [] {
      var front := updates[..|updates| - 1];
      var prev := RunBatch(process, p, front, transport);
      if prev.processed < |front| {
        StoppedBatchReason(process, p, front, transport);
        assert updates[prev.processed] == front[prev.processed];
      }
    }
  }

  /** One turn of the `while` loop: a failed GetUpdates leaves the state as it was. */
  function Iterate(process: Update -> Bot.Outcome, p: Progress, f: Fetch, transport: nat -> bool): (r: Progress)
    ensures f.FetchFailed? ==> r == p
    ensures p.calls <= r.calls
  {
    match f
    case FetchFailed => p
    case Fetched(updates) => RunBatch(process, p, updates, transport).progress
  }

  /** The `while` loop over the GetUpdates results received until cancellation. */
  function Run(process: Update -> Bot.Outcome, p: Progress, fetches: seq<Fetch>, transport: nat -> bool): (r: Progress)
    ensures p.calls <= r.calls
    decreases |fetches|
  {
    if fetches == [] then p
    else Iterate(process, Run(process, p, fetches[..|fetches| - 1], transport), fetches[|fetches| - 1], transport)
  }

  /** Once a batch has stopped early, the updates after the stop change nothing. */
  lemma {:induction false} RunBatchStopped(process: Update -> Bot.Outcome, p: Progress, updates: seq<Update>, transport: nat -> bool, k: nat)
    requires k <= |updates|
    requires RunBatch(process, p, updates[..k], transport).processed < k
    ensures RunBatch(process, p, updates, transport) == RunBatch(process, p, updates[..k], transport)
    decreases |updates| - k
  {
    if k < |updates| {
      var front := updates[..|updates| - 1];
      assert front[..k] == updates[..k];
      RunBatchStopped(process, p, front, transport, k);
    } else {
      assert updates[..k] == updates;
    }
  }

  /**
   * With the increasing update ids Telegram hands out (and no id at
   * `int.MaxValue`), the offset after a batch is past every processed update
   * and not past the update that threw: GetUpdates from that offset asks for
   * the failed update again and for none of the processed ones.
   */
  lemma ThrownUpdateRequestedAgain(process: Update -> Bot.Outcome, p: Progress, updates: seq<Update>, transport: nat -> bool)
    requires forall i, j :: 0 <= i < j < |updates| ==> updates[i].id < updates[j].id
    requires forall i :: 0 <= i < |updates| ==> updates[i].id < 0x7fff_ffff
    requires 0 < |updates| ==> p.offset <= updates[0].id
    ensures var r := RunBatch(process, p, updates, transport);
      (forall i :: 0 <= i < r.processed ==> updates[i].id < r.progress.offset) &&
      (r.processed < |updates| ==> r.progress.offset <= updates[r.processed].id)
  {
    var r := RunBatch(process, p, updates, transport);
    if 0 < r.processed {
      var last := updates[r.processed - 1];
      assert r.progress.offset as int == last.id as int + 1;
    }
  }

  /**
   * An update whose handling always throws blocks the worker: as long as
   * every GetUpdates either fails or returns that update first, the offset
   * never moves.
   */
  lemma {:induction false} PoisonUpdateBlocksOffset(process: Update -> Bot.Outcome, p: Progress, fetches: seq<Fetch>, transport: nat -> bool, u: Update)
    requires process(u).throws
    requires forall k :: 0 <= k < |fetches| ==>
      fetches[k].FetchFailed? || (0 < |fetches[k].updates| && fetches[k].updates[0] == u)
    ensures Run(process, p, fetches, transport).offset == p.offset
    decreases |fetches|
  {
    if fetches != [] {
      var front := fetches[..|fetches| - 1];
      PoisonUpdateBlocksOffset(process, p, front, transport, u);
      var f := fetches[|fetches| - 1];
      if f.Fetched? {
        var r := RunBatch(process, Run(process, p, front, transport), f.updates, transport);
        assert r.processed == 0;
      }
    }
  }

  /** The updates the session processed without an exception, in the order they were processed. */
  function ProcessedUpdates(process: Update -> Bot.Outcome, p: Progress, fetches: seq<Fetch>, transport: nat -> bool): seq<Update>
    decreases |fetches|
  {
    if fetches == [] then []
    else
      var front := fetches[..|fetches| - 1];
      var done := ProcessedUpdates(process, p, front, transport);
      match fetches[|fetches| - 1]
      case FetchFailed => done
      case Fetched(updates) =>
        done + updates[..RunBatch(process, Run(process, p, front, transport), updates, transport).processed]
  }

  /**
   * The offset after the loop is the `Id + 1` of the last update the session
   * processed, or the starting offset when it processed none.
   */
  lemma {:induction false} SessionOffset(process: Update -> Bot.Outcome, p: Progress, fetches: seq<Fetch>, transport: nat -> bool)
    ensures var done := ProcessedUpdates(process, p, fetches, transport);
      Run(process, p, fetches, transport).offset ==
        if done == [] then p.offset else Increment(done[|done| - 1].id)
    decreases |fetches|
  {
    if fetches != [] {
      var front := fetches[..|fetches| - 1];
      SessionOffset(process, p, front, transport);
      var f := fetches[|fetches| - 1];
      if f.Fetched? {
        var done := ProcessedUpdates(process, p, front, transport);
        var b := RunBatch(process, Run(process, p, front, transport), f.updates, transport);
        var all := done + f.updates[..b.processed];
        if 0 < b.processed {
          assert all[|all| - 1] == f.updates[b.processed - 1];
        } else {
          assert all == done;
        }
      }
    }
  }

  /** None of `updates` has a handler that throws. */
  predicate Returning(process: Update -> Bot.Outcome, updates: seq<Update>) {
    forall i :: 0 <= i < |updates| ==> !process(updates[i]).throws
  }

  /** No update the session processed has a handler that throws. */
  lemma {:induction false} SessionProcessedReturned(process: Update -> Bot.Outcome, p: Progress, fetches: seq<Fetch>, transport: nat -> bool)
    ensures Returning(process, ProcessedUpdates(process, p, fetches, transport))
    decreases |fetches|
  {
    if fetches != [] {
      var front := fetches[..|fetches| - 1];
      SessionProcessedReturned(process, p, front, transport);
      var f := fetches[|fetches| - 1];
      if f.Fetched? {
        var done := ProcessedUpdates(process, p, front, transport);
        var b := RunBatch(process, Run(process, p, front, transport), f.updates, transport);
        var all := done + f.updates[..b.processed];
        assert ProcessedUpdates(process, p, fetches, transport) == all;
        forall i | 0 <= i < |all|
          ensures !process(all[i]).throws
        {
          if |done| <= i {
            var j := i - |done|;
            assert j < b.processed && all[i] == f.updates[j];
          } else {
            assert all[i] == done[i];
          }
        }
      } else {
        assert ProcessedUpdates(process, p, fetches, transport) == ProcessedUpdates(process, p, front, transport);
      }
    }
  }

  /** `ProcessUpdate` against a catalog, as the handler the loop calls. */
  function Dispatcher(channels: seq<Channel>): Update -> Bot.Outcome {
    u => Bot.ProcessUpdate(channels, u)
  }

  /** The worker: the cached catalog (`_channels`) and the calls made through `_botClient`. */
  class Worker {
    var channels: seq<Channel>
    var calls: seq<Call>

    constructor ()
      ensures channels == [] && calls == []
    {
      channels := [];
      calls := [];
    }

    /**
     * The `foreach` of `ExecuteAsync` over one batch, from `offset`: each
     * update is processed and the offset moved past it, until the first
     * exception. Returns the new offset and whether an update threw.
     */
    method ProcessBatch(updates: seq<Update>, offset: int32, transport: nat -> bool) returns (next: int32, threw: bool)
      modifies this`calls
      ensures var r := RunBatch(Dispatcher(channels), Progress(offset, old(calls)), updates, transport);
        r.progress == Progress(next, calls) && (threw <==> r.processed < |updates|)
    {
      ghost var before := Progress(offset, calls);
      var process := Dispatcher(channels);
      next := offset;
      threw := false;
      var j := 0;
      while j < |updates| && !threw
        invariant 0 <= j <= |updates|
        invariant threw ==> 0 < j
        invariant RunBatch(process, before, updates[..j], transport) ==
          BatchEnd(Progress(next, calls), if threw then j - 1 else j)
      {
        var u := updates[j];
        RunBatchStep(process, before, updates, j, transport);
        var h := Handle(process, u, transport, |calls|);
        calls := calls + h.calls;
        if h.returned {
          next := Increment(u.id);
        } else {
          threw := true;
        }
        j := j + 1;
      }
      if threw {
        RunBatchStopped(process, before, updates, transport, j);
      } else {
        assert updates[..j] == updates;
      }
    }

    /**
     * `ExecuteAsync`: the catalog is cached, the commands are registered
     * (an exception there ends the worker before it polls), and the loop
     * runs over `fetches` from offset 0. Returns the final offset, and whether
     * the worker ended with an exception.
     */
    method Execute(catalog: seq<Channel>, fetches: seq<Fetch>, transport: nat -> bool) returns (offset: int32, faulted: bool)
      modifies this
      ensures channels == catalog
      ensures var registration := Call(SetMyCommands(Commands), transport(|old(calls)|));
        if registration.accepted then
          !faulted && Progress(offset, calls) == Run(Dispatcher(catalog), Progress(0, old(calls) + [registration]), fetches, transport)
        else
          faulted && offset == 0 && calls == old(calls) + [registration]
    {
      channels := catalog;
      var registered := transport(|calls|);
      calls := calls + [Call(SetMyCommands(Commands), registered)];
      offset := 0;
      if !registered {
        faulted := true;
        return;
      }
      faulted := false;
      ghost var start := Progress(0, calls);
      var i := 0;
      while i < |fetches|
        invariant 0 <= i <= |fetches|
        invariant channels == catalog
        invariant Progress(offset, calls) == Run(Dispatcher(catalog), start, fetches[..i], transport)
        decreases |fetches| - i
      {
        assert fetches[..i + 1][..i] == fetches[..i];
        match fetches[i] {
          case FetchFailed =>
            // the exception is logged and the loop waits five seconds
          case Fetched(updates) =>
            var threw;
            offset, threw := ProcessBatch(updates, offset, transport);
        }
        i := i + 1;
      }
      assert fetches[..i] == fetches;
    }
  }
}
