/**
 * The registry's detail-request loop: 202 Accepted (section 15.3.3 of RFC 9110) means
 * "not ready yet, ask again after a delay". The network is the sequence of responses the
 * successive requests receive; a request beyond its end gets no response. Sleeping is
 * counted, not performed.
 */
module Polling {
  import opened Retrievers

  /** The body a poll ended with, or why it raised. */
  datatype Fetch<B> = Fetched(body: B) | FetchFailed(failure: Failure)

  /** What a polling run did: its result, how many requests it sent and how many times it slept. */
  datatype Polled<B> = Polled(fetch: Fetch<B>, requests: nat, sleeps: nat)

  /** How request number `tryNumber` (counting from 1) ends when its response is `response`. */
  function Settle<B>(response: Response<B>, tryNumber: nat): Fetch<B>
  {
    if response.status == ACCEPTED then FetchFailed(NoResultAfter(tryNumber))
    else if response.status != OK then FetchFailed(BadResponse(response.status))
    else Fetched(response.body)
  }

  /**
   * The bounded retry from attempt `tryNumber` on: a 202 before the last attempt sleeps and
   * asks again, a 202 on attempt `maxTries` gives up, any other status ends the run.
   */
  function Poll<B>(network: seq<Response<B>>, tryNumber: nat, maxTries: nat): Polled<B>
    requires 1 <= tryNumber <= maxTries
    decreases maxTries - tryNumber
  {
    if tryNumber > |network| then Polled(FetchFailed(ConnectionError), tryNumber, tryNumber - 1)
    else if network[tryNumber - 1].status == ACCEPTED && tryNumber < maxTries then Poll(network, tryNumber + 1, maxTries)
    else Polled(Settle(network[tryNumber - 1], tryNumber), tryNumber, tryNumber - 1)
  }

  /** The retry loop, attempt by attempt, sleeping once between two attempts. */
  method PollBounded<B>(network: seq<Response<B>>, maxTries: nat) returns (r: Polled<B>)
    requires maxTries >= 1
    ensures r == Poll(network, 1, maxTries)
  {
    var tryNumber := 1;
    var sleeps := 0;
    while tryNumber <= |network| && network[tryNumber - 1].status == ACCEPTED && tryNumber < maxTries
      invariant 1 <= tryNumber <= maxTries
      invariant sleeps == tryNumber - 1
      invariant Poll(network, tryNumber, maxTries) == Poll(network, 1, maxTries)
      decreases maxTries - tryNumber
    {
      sleeps := sleeps + 1;
      tryNumber := tryNumber + 1;
    }
    if tryNumber > |network| {
      r := Polled(FetchFailed(ConnectionError), tryNumber, sleeps);
    } else {
      var response := network[tryNumber - 1];
      var fetch: Fetch<B>;
      if response.status == ACCEPTED {
        fetch := FetchFailed(NoResultAfter(tryNumber));
      } else if response.status != OK {
        fetch := FetchFailed(BadResponse(response.status));
      } else {
        fetch := Fetched(response.body);
      }
      r := Polled(fetch, tryNumber, sleeps);
    }
  }

  /** Every response before the one at `last` was a 202. */
  predicate AcceptedBefore<B>(network: seq<Response<B>>, last: nat)
  {
    last <= |network| && forall j :: 0 <= j < last ==> network[j].status == ACCEPTED
  }

  /**
   * The whole shape of a bounded run: at most `maxTries` requests, one sleep fewer than
   * requests, 202s before the last response, and the last response (or its absence)
   * deciding the result.
   */
  lemma {:induction false} PollShape<B>(network: seq<Response<B>>, tryNumber: nat, maxTries: nat)
    requires 1 <= tryNumber <= maxTries && AcceptedBefore(network, tryNumber - 1)
    ensures var r := Poll(network, tryNumber, maxTries);
      && tryNumber <= r.requests <= maxTries
      && r.sleeps == r.requests - 1
      && AcceptedBefore(network, r.requests - 1)
      && (r.requests > |network| <==> r.fetch == FetchFailed(ConnectionError))
      && (r.requests <= |network| ==> r.fetch == Settle(network[r.requests - 1], r.requests))
      && (r.requests < maxTries && r.requests <= |network| ==> network[r.requests - 1].status != ACCEPTED)
    decreases maxTries - tryNumber
  {
    if tryNumber <= |network| && network[tryNumber - 1].status == ACCEPTED && tryNumber < maxTries {
      PollShape(network, tryNumber + 1, maxTries);
    }
  }

  /** Never more than `maxTries` requests and `maxTries - 1` sleeps. */
  lemma PollBound<B>(network: seq<Response<B>>, maxTries: nat)
    requires maxTries >= 1
    ensures Poll(network, 1, maxTries).requests <= maxTries
    ensures Poll(network, 1, maxTries).sleeps <= maxTries - 1
    ensures Poll(network, 1, maxTries).sleeps + 1 == Poll(network, 1, maxTries).requests
  {
    PollShape(network, 1, maxTries);
  }

  /** `k` 202s and then a 200, with `k < maxTries`: the 200's body, after exactly `k` sleeps. */
  lemma {:induction false} PollSucceeds<B>(network: seq<Response<B>>, k: nat, tryNumber: nat, maxTries: nat)
    requires 1 <= tryNumber <= k + 1 && k < maxTries && k < |network|
    requires AcceptedBefore(network, k) && network[k].status == OK
    ensures Poll(network, tryNumber, maxTries) == Polled(Fetched(network[k].body), k + 1, k)
    decreases k + 1 - tryNumber
  {
    if tryNumber <= k {
      PollSucceeds(network, k, tryNumber + 1, maxTries);
    }
  }

  /** 202s on all `maxTries` attempts: the call raises "no result after `maxTries` tries". */
  lemma {:induction false} PollGivesUp<B>(network: seq<Response<B>>, tryNumber: nat, maxTries: nat)
    requires 1 <= tryNumber <= maxTries && AcceptedBefore(network, maxTries)
    ensures Poll(network, tryNumber, maxTries) == Polled(FetchFailed(NoResultAfter(maxTries)), maxTries, maxTries - 1)
    decreases maxTries - tryNumber
  {
    if tryNumber < maxTries {
      PollGivesUp(network, tryNumber + 1, maxTries);
    }
  }

  /** `k` 202s and then a status that is neither 200 nor 202, with `k < maxTries`: BadResponse for that status at once. */
  lemma {:induction false} PollRejects<B>(network: seq<Response<B>>, k: nat, tryNumber: nat, maxTries: nat)
    requires 1 <= tryNumber <= k + 1 && k < maxTries && k < |network|
    requires AcceptedBefore(network, k) && network[k].status != OK && network[k].status != ACCEPTED
    ensures Poll(network, tryNumber, maxTries) == Polled(FetchFailed(BadResponse(network[k].status)), k + 1, k)
    decreases k + 1 - tryNumber
  {
    if tryNumber <= k {
      PollRejects(network, k, tryNumber + 1, maxTries);
    }
  }

  /** With two tries allowed, two 202s make the call raise after one sleep. */
  lemma TwoTriesTwoAccepted<B>(network: seq<Response<B>>)
    requires |network| >= 2 && network[0].status == ACCEPTED && network[1].status == ACCEPTED
    ensures Poll(network, 1, 2) == Polled(FetchFailed(NoResultAfter(2)), 2, 1)
  {
    PollGivesUp(network, 1, 2);
  }

  // ---------------------------------------------------------------- without an attempt limit

  /** The early retry, which has no attempt limit: 202 always sleeps and asks again. */
  function PollForever<B>(network: seq<Response<B>>, i: nat): Polled<B>
    decreases |network| - i
  {
    if i >= |network| then Polled(FetchFailed(ConnectionError), i + 1, i)
    else if network[i].status == ACCEPTED then PollForever(network, i + 1)
    else Polled(Settle(network[i], i + 1), i + 1, i)
  }

  /** The unlimited retry loop. */
  method PollUnbounded<B>(network: seq<Response<B>>) returns (r: Polled<B>)
    ensures r == PollForever(network, 0)
  {
    var i := 0;
    while i < |network| && network[i].status == ACCEPTED
      invariant i <= |network|
      invariant PollForever(network, i) == PollForever(network, 0)
    {
      i := i + 1;
    }
    if i == |network| {
      r := Polled(FetchFailed(ConnectionError), i + 1, i);
    } else if network[i].status != OK {
      r := Polled(FetchFailed(BadResponse(network[i].status)), i + 1, i);
    } else {
      r := Polled(Fetched(network[i].body), i + 1, i);
    }
  }

  /**
   * The unlimited retry behaves as the bounded one with more attempts allowed than
   * there are responses: it runs until the first answer that is not 202, or until the
   * responses run out, and never gives up on its own.
   */
  lemma {:induction false} PollForeverIsUnlimited<B>(network: seq<Response<B>>, i: nat)
    requires i <= |network| && AcceptedBefore(network, i)
    ensures PollForever(network, i) == Poll(network, i + 1, |network| + 1)
    ensures !PollForever(network, i).fetch.FetchFailed? || !PollForever(network, i).fetch.failure.NoResultAfter?
    decreases |network| - i
  {
    if i < |network| && network[i].status == ACCEPTED {
      PollForeverIsUnlimited(network, i + 1);
    }
  }
}
