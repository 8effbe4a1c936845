/**
 * `SubmissionScheduler` (src/utils/scheduler.ts): keeps one timeout armed
 * for the next 22:00 Paris time; when it fires, sends the day's summary
 * through `sendToWebhook` unless the stored marker says today's was
 * already sent, and arms the next one. A failed send arms a retry five
 * minutes later, with no bound on the number of retries.
 *
 * Clocks, timeouts and `localStorage` are explicit: the wall-clock second
 * of the day and the date text are arguments, an armed timeout is the
 * delay it was armed with, the stored marker is a field, and the firing of
 * a timeout is a method call.
 */
module Scheduler {
  import opened Wrappers
  import opened Domain
  import Grouping
  import Webhook

  const SecondsPerDay: nat := 24 * 60 * 60
  /** 22:00 as a second of the day. */
  const TargetSecond: nat := 22 * 60 * 60
  /** `5 * 60 * 1000`: the retry delay in milliseconds. */
  const RetryDelay: nat := 5 * 60 * 1000

  /**
   * `scheduleNextRun`'s delay in milliseconds from wall-clock second
   * `second` of the day: to 22:00 today, or to 22:00 tomorrow from 22:00 on.
   * The wall-clock text carries no milliseconds, so the delay is whole seconds.
   */
  function DelayUntilTarget(second: nat): (delay: nat)
    requires second < SecondsPerDay
    ensures 0 < delay <= SecondsPerDay * 1000 && delay % 1000 == 0
    ensures (second + delay / 1000) % SecondsPerDay == TargetSecond
    ensures second < TargetSecond <==> second + delay / 1000 == TargetSecond
  {
    if second / 3600 >= 22 then (SecondsPerDay + TargetSecond - second) * 1000
    else (TargetSecond - second) * 1000
  }

  /** Re-arming at 22:00 sharp waits a full day, so the timer fires once a day. */
  lemma ArmedAtTargetWaitsADay()
    ensures DelayUntilTarget(TargetSecond) == SecondsPerDay * 1000
  {
  }

  class SubmissionScheduler {
    /** The armed daily timeout, as the delay it was armed with; `None` once stopped. */
    var timer: Option<nat>
    var webhookUrl: string
    /** The `lastSubmissionSent` entry of `localStorage`. */
    var lastSent: Option<string>
    /** Retry timeouts armed after failed sends and not yet fired; `stop` does not clear them. */
    var pendingRetries: nat

    /** Every armed daily timeout lies in the next day. */
    predicate Valid()
      reads this
    {
      timer.Some? ==> 0 < timer.value <= SecondsPerDay * 1000
    }

    /** `new SubmissionScheduler(url, …)` at wall-clock `second`, with `stored` already in `localStorage`. */
    constructor (url: string, second: nat, stored: Option<string>)
      requires second < SecondsPerDay
      ensures Valid()
      ensures timer == Some(DelayUntilTarget(second))
      ensures webhookUrl == url && lastSent == stored && pendingRetries == 0
    {
      webhookUrl := url;
      lastSent := stored;
      pendingRetries := 0;
      timer := Some(DelayUntilTarget(second));
    }

    /**
     * `sendDailySummary` on date `today`: nothing when the marker holds
     * `today`; otherwise sends the submissions to the current URL, records
     * `today` on delivery and arms a retry on failure. `outcome` is `None`
     * when nothing was sent.
     */
    method SendDailySummary(today: string, submissions: seq<Submission>,
                            dateOf: string -> string, timeOf: string -> string, respond: nat -> Webhook.Response)
      returns (requests: seq<Webhook.Request>, outcome: Option<Webhook.Outcome>)
      modifies this
      ensures timer == old(timer) && webhookUrl == old(webhookUrl)
      ensures old(lastSent) == Some(today) ==>
        requests == [] && outcome == None && lastSent == old(lastSent) && pendingRetries == old(pendingRetries)
      ensures old(lastSent) != Some(today) ==> outcome.Some?
      ensures old(lastSent) != Some(today) && |submissions| > 0 ==> |requests| > 0
      ensures var gs := Webhook.Grouped(submissions, dateOf, timeOf);
        && |requests| <= |gs|
        && forall i :: 0 <= i < |requests| ==> requests[i] == Webhook.Request(webhookUrl, Webhook.Payload(gs[i].key, gs[i].items))
      ensures outcome == Some(Webhook.Delivered) <==>
        old(lastSent) != Some(today) && Webhook.AllOk(respond, |Webhook.Grouped(submissions, dateOf, timeOf)|)
      ensures outcome.Some? && outcome.value.Failed? ==>
        |requests| > 0 && Webhook.AllOk(respond, |requests| - 1) && !respond(|requests| - 1).Ok?
      ensures outcome == Some(Webhook.Delivered) ==>
        |requests| == |Webhook.Grouped(submissions, dateOf, timeOf)| && lastSent == Some(today) && pendingRetries == old(pendingRetries)
      ensures outcome.Some? && outcome.value.Failed? ==> lastSent == old(lastSent) && pendingRetries == old(pendingRetries) + 1
    {
      if lastSent == Some(today) {
        return [], None;
      }
      var o;
      requests, o := Webhook.SendToWebhook(submissions, webhookUrl, dateOf, timeOf, respond);
      outcome := Some(o);
      ghost var sent := requests;
      if o.Delivered? {
        lastSent := Some(today);
      } else {
        pendingRetries := pendingRetries + 1;
      }
      assert requests == sent;
    }

    /** The daily timeout fires at wall-clock `second`: the summary is attempted and the next run armed. */
    method Fire(second: nat, today: string, submissions: seq<Submission>,
                dateOf: string -> string, timeOf: string -> string, respond: nat -> Webhook.Response)
      returns (requests: seq<Webhook.Request>, outcome: Option<Webhook.Outcome>)
      requires timer.Some? && second < SecondsPerDay
      modifies this
      ensures Valid()
      ensures timer == Some(DelayUntilTarget(second)) && webhookUrl == old(webhookUrl)
      ensures old(lastSent) == Some(today) ==>
        requests == [] && outcome == None && lastSent == old(lastSent) && pendingRetries == old(pendingRetries)
      ensures var gs := Webhook.Grouped(submissions, dateOf, timeOf);
        && |requests| <= |gs|
        && forall i :: 0 <= i < |requests| ==> requests[i] == Webhook.Request(webhookUrl, Webhook.Payload(gs[i].key, gs[i].items))
      ensures outcome == Some(Webhook.Delivered) <==>
        old(lastSent) != Some(today) && Webhook.AllOk(respond, |Webhook.Grouped(submissions, dateOf, timeOf)|)
      ensures outcome.Some? && outcome.value.Failed? ==>
        |requests| > 0 && Webhook.AllOk(respond, |requests| - 1) && !respond(|requests| - 1).Ok?
      ensures outcome == Some(Webhook.Delivered) ==>
        |requests| == |Webhook.Grouped(submissions, dateOf, timeOf)| && lastSent == Some(today) && pendingRetries == old(pendingRetries)
      ensures outcome.Some? && outcome.value.Failed? ==> lastSent == old(lastSent) && pendingRetries == old(pendingRetries) + 1
    {
      requests, outcome := SendDailySummary(today, submissions, dateOf, timeOf, respond);
      timer := Some(DelayUntilTarget(second));
    }

    /** A retry timeout fires: one fewer is pending, and the summary is attempted again. */
    method RetryFire(today: string, submissions: seq<Submission>,
                     dateOf: string -> string, timeOf: string -> string, respond: nat -> Webhook.Response)
      returns (requests: seq<Webhook.Request>, outcome: Option<Webhook.Outcome>)
      requires pendingRetries > 0
      modifies this
      ensures timer == old(timer) && webhookUrl == old(webhookUrl)
      ensures var gs := Webhook.Grouped(submissions, dateOf, timeOf);
        && |requests| <= |gs|
        && forall i :: 0 <= i < |requests| ==> requests[i] == Webhook.Request(webhookUrl, Webhook.Payload(gs[i].key, gs[i].items))
      ensures outcome == Some(Webhook.Delivered) <==>
        old(lastSent) != Some(today) && Webhook.AllOk(respond, |Webhook.Grouped(submissions, dateOf, timeOf)|)
      ensures outcome.Some? && outcome.value.Failed? ==>
        |requests| > 0 && Webhook.AllOk(respond, |requests| - 1) && !respond(|requests| - 1).Ok?
      ensures old(lastSent) == Some(today) ==>
        requests == [] && outcome == None && lastSent == old(lastSent) && pendingRetries == old(pendingRetries) - 1
      ensures outcome == Some(Webhook.Delivered) ==>
        |requests| == |Webhook.Grouped(submissions, dateOf, timeOf)| && lastSent == Some(today) && pendingRetries == old(pendingRetries) - 1
      ensures outcome.Some? && outcome.value.Failed? ==> lastSent == old(lastSent) && pendingRetries == old(pendingRetries)
    {
      pendingRetries := pendingRetries - 1;
      requests, outcome := SendDailySummary(today, submissions, dateOf, timeOf, respond);
    }

    /** `updateWebhookUrl`: later sends go to `url`; nothing else changes. */
    method UpdateWebhookUrl(url: string)
      modifies this`webhookUrl
      ensures webhookUrl == url
    {
      webhookUrl := url;
    }

    /** `stop`: clears the daily timeout, if any; pending retries stay armed. */
    method Stop()
      modifies this`timer
      ensures timer == None
    {
      if timer.Some? {
        timer := None;
      }
    }
  }
}
