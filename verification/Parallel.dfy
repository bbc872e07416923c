/**
 A batch of goroutines that each make one call and, if it fails, send one error: the shape of
 every parallel phase of the failover. A scheduler picks any goroutine for the next step.
 */
module Parallel {

  /** Where one goroutine is: before its call, holding an error to send, or returned. */
  datatype Task = Ready | Erring | Done

  /** The steps a goroutine still has to make at most. */
  function Work(t: Task): nat {
    match t
    case Ready => 2
    case Erring => 1
    case Done => 0
  }

  function WorkLeft(ts: seq<Task>): nat {
    if ts == [] then 0 else Work(ts[0]) + WorkLeft(ts[1..])
  }

  lemma {:induction false} WorkAt(ts: seq<Task>, i: nat, t: Task)
    requires i < |ts|
    ensures WorkLeft(ts[i := t]) + Work(ts[i]) == WorkLeft(ts) + Work(t)
  {
    if i > 0 {
      assert ts[i := t][1..] == ts[1..][i - 1 := t];
      WorkAt(ts[1..], i - 1, t);
    } else {
      assert ts[i := t][1..] == ts[1..];
    }
  }

  /** How many flags are set. */
  function Count(bs: seq<bool>): nat {
    if bs == [] then 0 else (if bs[0] then 1 else 0) + Count(bs[1..])
  }

  lemma {:induction false} CountAt(bs: seq<bool>, i: nat)
    requires i < |bs| && !bs[i]
    ensures Count(bs[i := true]) == Count(bs) + 1
  {
    if i > 0 {
      assert bs[i := true][1..] == bs[1..][i - 1 := true];
      CountAt(bs[1..], i - 1);
    } else {
      assert bs[i := true][1..] == bs[1..];
    }
  }

  lemma {:induction false} CountBounded(bs: seq<bool>)
    ensures Count(bs) <= |bs|
    ensures (exists i :: 0 <= i < |bs| && !bs[i]) ==> Count(bs) < |bs|
    ensures Count(bs) == 0 <==> forall i :: 0 <= i < |bs| ==> !bs[i]
  {
    if bs != [] {
      CountBounded(bs[1..]);
      assert forall i :: 0 < i < |bs| ==> bs[i] == bs[1..][i - 1];
      assert forall i :: 0 <= i < |bs| - 1 ==> bs[1..][i] == bs[i + 1];
    }
  }

  function NoFlags(n: nat): (bs: seq<bool>)
    ensures |bs| == n && forall i :: 0 <= i < n ==> !bs[i]
  {
    seq(n, _ => false)
  }

  function AllReady(n: nat): (ts: seq<Task>)
    ensures |ts| == n && forall i :: 0 <= i < n ==> ts[i] == Ready
  {
    seq(n, _ => Ready)
  }

  /** A buffered channel of errors. Sending to a full one would block, and is not allowed. */
  class ErrorChannel {
    const capacity: nat
    var buffer: seq<string>
    var closed: bool

    constructor (capacity: nat)
      ensures this.capacity == capacity && buffer == [] && !closed
    {
      this.capacity, buffer, closed := capacity, [], false;
    }

    method Send(e: string)
      requires !closed && |buffer| < capacity
      modifies this
      ensures buffer == old(buffer) + [e] && !closed
    {
      buffer := buffer + [e];
    }

    /** Takes the oldest entry. Receiving from an empty channel would block, and is not allowed. */
    method Receive() returns (e: string)
      requires buffer != []
      modifies this
      ensures e == old(buffer)[0] && buffer == old(buffer)[1..] && closed == old(closed)
    {
      e, buffer := buffer[0], buffer[1..];
    }

    method Close()
      requires !closed
      modifies this
      ensures closed && buffer == old(buffer)
    {
      closed := true;
    }

    /** Ranges over a closed channel: every error that was sent is collected once, in order. */
    method Collect() returns (errs: seq<string>)
      requires closed
      modifies this
      ensures errs == old(buffer) && buffer == [] && closed
    {
      errs := [];
      while buffer != []
        invariant errs + buffer == old(buffer) && closed
        decreases |buffer|
      {
        errs, buffer := errs + [buffer[0]], buffer[1..];
      }
    }
  }
}
