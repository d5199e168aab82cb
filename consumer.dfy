/**
 * One queue's consumer loop (`for m := range msgs { ... }`) and the counters it
 * updates. Each delivery is handed to the command invoker; when the command
 * succeeds the delivery is acknowledged and the `ok` counter goes up by one,
 * otherwise nothing is acknowledged and the `errors` counter goes up by one.
 *
 * The broker is not modelled: the deliveries of one subscription arrive as a
 * sequence, each paired with what its invocation's steps return, and an
 * acknowledgement is recorded by appending the delivery tag to a channel.
 */
module Consumer {
  import opened Wrappers
  import opened Invoker

  /** The broker's handle for one delivery. */
  type DeliveryTag = nat

  /** A delivered message: its handle and its opaque body. */
  datatype Delivery = Delivery(tag: DeliveryTag, body: seq<Byte>)

  /** A delivery together with what its invocation's steps return. */
  datatype Arrival = Arrival(delivery: Delivery, env: ProcessEnv)

  /** The shared counters (the `stats` map with its keys `ok` and `errors`). */
  class Stats {
    var ok: nat
    var errors: nat

    /** Both counters start at zero. */
    constructor ()
      ensures ok == 0 && errors == 0
    {
      ok, errors := 0, 0;
    }

    method IncrementOk()
      modifies this
      ensures ok == old(ok) + 1 && errors == old(errors)
    {
      ok := ok + 1;
    }

    method IncrementErrors()
      modifies this
      ensures errors == old(errors) + 1 && ok == old(ok)
    {
      errors := errors + 1;
    }

    /** What the status endpoint serves: a record with exactly the two counters. */
    function Snapshot(): (s: map<string, int>)
      reads this
      ensures s.Keys == {"ok", "errors"}
      ensures s["ok"] == ok && s["errors"] == errors
    {
      map["ok" := ok, "errors" := errors]
    }
  }

  /** The broker channel, as far as the consumer uses it: the tags it has acknowledged, in order. */
  class Channel {
    var acked: seq<DeliveryTag>

    constructor ()
      ensures acked == []
    {
      acked := [];
    }

    method Ack(tag: DeliveryTag)
      modifies this
      ensures acked == old(acked) + [tag]
    {
      acked := acked + [tag];
    }
  }

  /** The tags of the deliveries, in delivery order. */
  function Tags(xs: seq<Arrival>): (ts: seq<DeliveryTag>)
    ensures |ts| == |xs|
    ensures forall i :: 0 <= i < |xs| ==> ts[i] == xs[i].delivery.tag
  {
    seq(|xs|, i requires 0 <= i < |xs| => xs[i].delivery.tag)
  }

  /** The tags of the deliveries whose invocation succeeded, in delivery order. */
  function AckedTags(xs: seq<Arrival>): (ts: seq<DeliveryTag>)
  {
    if xs == [] then []
    else
      var last := xs[|xs| - 1];
      AckedTags(xs[..|xs| - 1]) + (if Succeeds(last.env) then [last.delivery.tag] else [])
  }

  /** How many of the deliveries' invocations succeeded. */
  function SuccessCount(xs: seq<Arrival>): (n: nat)
    ensures n <= |xs|
  {
    if xs == [] then 0
    else SuccessCount(xs[..|xs| - 1]) + (if Succeeds(xs[|xs| - 1].env) then 1 else 0)
  }

  /** No tag occurs twice. */
  predicate Distinct(ts: seq<DeliveryTag>)
  {
    forall i, j :: 0 <= i < j < |ts| ==> ts[i] != ts[j]
  }

  /** One acknowledgement per successful delivery. */
  lemma {:induction false} AckedTagsCount(xs: seq<Arrival>)
    ensures |AckedTags(xs)| == SuccessCount(xs)
  {
    if xs != [] {
      AckedTagsCount(xs[..|xs| - 1]);
    }
  }

  /** Acknowledgements of a later batch come after those of an earlier one. */
  lemma {:induction false} AckedTagsAppend(xs: seq<Arrival>, ys: seq<Arrival>)
    ensures AckedTags(xs + ys) == AckedTags(xs) + AckedTags(ys)
    ensures SuccessCount(xs + ys) == SuccessCount(xs) + SuccessCount(ys)
  {
    if ys == [] {
      assert xs + ys == xs;
    } else {
      var ys' := ys[..|ys| - 1];
      assert (xs + ys)[..|xs + ys| - 1] == xs + ys';
      AckedTagsAppend(xs, ys');
    }
  }

  /** Every acknowledged tag belongs to a delivery whose invocation succeeded. */
  lemma {:induction false} AckedTagsFromSuccesses(xs: seq<Arrival>, t: DeliveryTag)
    requires t in AckedTags(xs)
    ensures exists i :: 0 <= i < |xs| && xs[i].delivery.tag == t && Succeeds(xs[i].env)
  {
    var init := xs[..|xs| - 1];
    if t in AckedTags(init) {
      AckedTagsFromSuccesses(init, t);
      var i :| 0 <= i < |init| && init[i].delivery.tag == t && Succeeds(init[i].env);
      assert xs[i] == init[i];
    } else {
      assert xs[|xs| - 1].delivery.tag == t && Succeeds(xs[|xs| - 1].env);
    }
  }

  /** Every delivery whose invocation succeeded is acknowledged. */
  lemma {:induction false} SuccessesAcked(xs: seq<Arrival>, i: nat)
    requires i < |xs| && Succeeds(xs[i].env)
    ensures xs[i].delivery.tag in AckedTags(xs)
  {
    var init := xs[..|xs| - 1];
    if i < |init| {
      SuccessesAcked(init, i);
      assert init[i] == xs[i];
    }
  }

  /**
   * With distinct delivery tags (as the broker hands out on one channel), a
   * delivery is acknowledged exactly when its invocation succeeded.
   */
  lemma {:induction false} AckedIffSucceeded(xs: seq<Arrival>, i: nat)
    requires Distinct(Tags(xs)) && i < |xs|
    ensures xs[i].delivery.tag in AckedTags(xs) <==> Succeeds(xs[i].env)
  {
    if Succeeds(xs[i].env) {
      SuccessesAcked(xs, i);
    } else if xs[i].delivery.tag in AckedTags(xs) {
      AckedTagsFromSuccesses(xs, xs[i].delivery.tag);
      assert false;
    }
  }

  /** With distinct delivery tags, no delivery is acknowledged twice. */
  lemma {:induction false} AckedAtMostOnce(xs: seq<Arrival>)
    requires Distinct(Tags(xs))
    ensures Distinct(AckedTags(xs))
  {
    if xs != [] {
      var init := xs[..|xs| - 1];
      var last := xs[|xs| - 1];
      assert Distinct(Tags(init)) by {
        forall i, j | 0 <= i < j < |init| ensures Tags(init)[i] != Tags(init)[j] {
          assert Tags(init)[i] == Tags(xs)[i] && Tags(init)[j] == Tags(xs)[j];
        }
      }
      AckedAtMostOnce(init);
      if Succeeds(last.env) && last.delivery.tag in AckedTags(init) {
        AckedTagsFromSuccesses(init, last.delivery.tag);
        assert false;
      }
    }
  }

  /** When every invocation succeeds, every delivery is acknowledged, in order, and all are counted ok. */
  lemma {:induction false} AllSucceed(xs: seq<Arrival>)
    requires forall i :: 0 <= i < |xs| ==> Succeeds(xs[i].env)
    ensures AckedTags(xs) == Tags(xs)
    ensures SuccessCount(xs) == |xs|
  {
    if xs != [] {
      var init := xs[..|xs| - 1];
      AllSucceed(init);
      assert Tags(xs) == Tags(init) + [xs[|xs| - 1].delivery.tag];
    }
  }

  /** When every invocation fails, nothing is acknowledged and every delivery is counted as an error. */
  lemma {:induction false} AllFail(xs: seq<Arrival>)
    requires forall i :: 0 <= i < |xs| ==> !Succeeds(xs[i].env)
    ensures AckedTags(xs) == []
    ensures SuccessCount(xs) == 0
  {
    if xs != [] {
      AllFail(xs[..|xs| - 1]);
    }
  }

  /**
   * The body of the consumer loop for one delivery: invoke the command; on
   * success acknowledge the delivery and count it ok, on failure count an
   * error and leave the delivery unacknowledged. Exactly one counter moves,
   * by exactly one.
   */
  method HandleDelivery(cfg: CommandConfig, a: Arrival, ch: Channel, stats: Stats)
    modifies ch, stats
    ensures Succeeds(a.env) ==>
      ch.acked == old(ch.acked) + [a.delivery.tag] &&
      stats.ok == old(stats.ok) + 1 && stats.errors == old(stats.errors)
    ensures !Succeeds(a.env) ==>
      ch.acked == old(ch.acked) &&
      stats.ok == old(stats.ok) && stats.errors == old(stats.errors) + 1
  {
    var err, _ := InvokeCommand(cfg, a.delivery.body, a.env);
    if err.None? {
      ch.Ack(a.delivery.tag);
      stats.IncrementOk();
    } else {
      stats.IncrementErrors();
    }
  }

  /**
   * One queue's loop over its deliveries, strictly in order. The channel
   * acknowledges the successful deliveries' tags in delivery order; `ok`
   * grows by the number of successes and `errors` by the number of failures.
   */
  method ConsumeQueue(cfg: CommandConfig, arrivals: seq<Arrival>, ch: Channel, stats: Stats)
    modifies ch, stats
    ensures ch.acked == old(ch.acked) + AckedTags(arrivals)
    ensures stats.ok == old(stats.ok) + SuccessCount(arrivals)
    ensures stats.errors == old(stats.errors) + (|arrivals| - SuccessCount(arrivals))
    ensures stats.ok + stats.errors == old(stats.ok) + old(stats.errors) + |arrivals|
  {
    for i := 0 to |arrivals|
      invariant ch.acked == old(ch.acked) + AckedTags(arrivals[..i])
      invariant stats.ok == old(stats.ok) + SuccessCount(arrivals[..i])
      invariant stats.errors == old(stats.errors) + (i - SuccessCount(arrivals[..i]))
    {
      HandleDelivery(cfg, arrivals[i], ch, stats);
      assert arrivals[..i + 1][..i] == arrivals[..i];
    }
    assert arrivals[..|arrivals|] == arrivals;
  }

  /**
   * A worked run: three deliveries whose command succeeds and two whose
   * command exits non-zero, starting from fresh counters. The status served
   * afterwards is `{"ok": 3, "errors": 2}` and only the three successful
   * deliveries are acknowledged.
   */
  method MixedRunExample(cfg: CommandConfig, body: seq<Byte>, exitError: Error)
    returns (status: map<string, int>, acked: seq<DeliveryTag>)
    ensures status == map["ok" := 3, "errors" := 2]
    ensures acked == [1, 3, 5]
  {
    var good := ProcessEnv(None, None, None, None, None);
    var bad := ProcessEnv(None, None, None, None, Some(exitError));
    var arrivals := [
      Arrival(Delivery(1, body), good), Arrival(Delivery(2, body), bad),
      Arrival(Delivery(3, body), good), Arrival(Delivery(4, body), bad),
      Arrival(Delivery(5, body), good)];
    assert arrivals[..1][..0] == [];
    assert AckedTags(arrivals[..1]) == [1] && SuccessCount(arrivals[..1]) == 1;
    assert arrivals[..2][..1] == arrivals[..1];
    assert AckedTags(arrivals[..2]) == [1] && SuccessCount(arrivals[..2]) == 1;
    assert arrivals[..3][..2] == arrivals[..2];
    assert AckedTags(arrivals[..3]) == [1, 3] && SuccessCount(arrivals[..3]) == 2;
    assert arrivals[..4][..3] == arrivals[..3];
    assert AckedTags(arrivals[..4]) == [1, 3] && SuccessCount(arrivals[..4]) == 2;
    assert arrivals[..4] == arrivals[..|arrivals| - 1];
    assert AckedTags(arrivals) == [1, 3, 5] && SuccessCount(arrivals) == 3;
    var stats := new Stats();
    var ch := new Channel();
    ConsumeQueue(cfg, arrivals, ch, stats);
    status := stats.Snapshot();
    acked := ch.acked;
  }
}
