/**
 * `CombinedReceiptRetriever`: asks its sources in the configured order and returns the
 * first receipt one of them finds; a source that raises or answers `None` is passed over.
 */
module Combined {
  import opened Base
  import opened Lib
  import opened Retrievers

  /** A source as the combinator sees it: its `get_receipt`, from parameters to outcome. */
  type Source = ReceiptParams -> Outcome

  /**
   * Trying the answers `outcomes` in order: the first receipt found, and how many
   * sources had been asked when the search stopped.
   */
  function FirstFound(outcomes: seq<Outcome>): (r: (Option<ParsedReceipt>, nat))
    ensures r.0.Some? ==>
      && 1 <= r.1 <= |outcomes| && outcomes[r.1 - 1] == Found(r.0.value)
      && forall j :: 0 <= j < r.1 - 1 ==> !Truthy(outcomes[j])
    ensures r.0.None? ==> r.1 == |outcomes| && forall j :: 0 <= j < |outcomes| ==> !Truthy(outcomes[j])
  {
    if outcomes == [] then (None, 0)
    else if Truthy(outcomes[0]) then (Some(outcomes[0].receipt), 1)
    else
      var rest := FirstFound(outcomes[1..]);
      assert forall j :: 1 <= j < |outcomes| ==> outcomes[j] == outcomes[1..][j - 1];
      (rest.0, rest.1 + 1)
  }

  /** No source at all: `None`, nothing asked. */
  lemma NoSources()
    ensures FirstFound([]) == (None, 0)
  {
  }

  /** A source that raises, or answers `None`, is skipped: the search goes on with the next one. */
  lemma {:induction false} PassesOver(first: Outcome, rest: seq<Outcome>)
    requires !Truthy(first)
    ensures FirstFound([first] + rest) == (FirstFound(rest).0, FirstFound(rest).1 + 1)
  {
    assert ([first] + rest)[1..] == rest;
  }

  /** A receipt from the first source is returned as it is, and nothing else is asked. */
  lemma FirstWins(receipt: ParsedReceipt, rest: seq<Outcome>)
    ensures FirstFound([Found(receipt)] + rest) == (Some(receipt), 1)
  {
  }

  /**
   * The sources after the one that answered play no part: any answers they might give
   * leave the result unchanged.
   */
  lemma {:induction false} LaterSourcesIgnored(outcomes: seq<Outcome>, others: seq<Outcome>)
    requires FirstFound(outcomes).0.Some?
    requires FirstFound(outcomes).1 <= |others| && others[..FirstFound(outcomes).1] == outcomes[..FirstFound(outcomes).1]
    ensures FirstFound(others) == FirstFound(outcomes)
  {
    var n := FirstFound(outcomes).1;
    assert outcomes[0] == outcomes[..n][0] == others[..n][0] == others[0];
    if !Truthy(outcomes[0]) {
      assert outcomes[1..][..n - 1] == outcomes[..n][1..] == others[..n][1..] == others[1..][..n - 1];
      LaterSourcesIgnored(outcomes[1..], others[1..]);
    }
  }

  /** Every answer is a source's own: the combinator never builds or alters a receipt. */
  lemma ResultComesFromSource(outcomes: seq<Outcome>)
    requires FirstFound(outcomes).0.Some?
    ensures exists k :: 0 <= k < |outcomes| && outcomes[k] == Found(FirstFound(outcomes).0.value)
  {
    var r := FirstFound(outcomes);
    assert outcomes[r.1 - 1] == Found(r.0.value);
  }

  class CombinedReceiptRetriever {
    var retrievers: seq<Source>

    constructor(retrievers: seq<Source>)
      ensures this.retrievers == retrievers
    {
      this.retrievers := retrievers;
    }

    /** What each configured source would answer for `params`, in order. */
    function Answers(params: ReceiptParams): (s: seq<Outcome>)
      reads this
      ensures |s| == |retrievers| && forall k :: 0 <= k < |s| ==> s[k] == retrievers[k](params)
    {
      seq(|retrievers|, k requires 0 <= k < |retrievers| reads this => retrievers[k](params))
    }

    /**
     * `get_receipt`: the sources in order, stopping at the first truthy answer;
     * `invoked` is the number of sources called.
     */
    method GetReceipt(params: ReceiptParams) returns (r: Option<ParsedReceipt>, invoked: nat)
      ensures (r, invoked) == FirstFound(Answers(params))
    {
      var i := 0;
      while i < |retrievers|
        invariant 0 <= i <= |retrievers|
        invariant forall j :: 0 <= j < i ==> !Truthy(retrievers[j](params))
      {
        var data := retrievers[i](params);
        if Truthy(data) {
          r, invoked := Some(data.receipt), i + 1;
          Settles(Answers(params), i);
          return;
        }
        i := i + 1;
      }
      r, invoked := None, |retrievers|;
      Settles(Answers(params), |retrievers|);
    }
  }

  /** The search stops at the first truthy answer, or runs through all of them. */
  lemma Settles(outcomes: seq<Outcome>, i: nat)
    requires i <= |outcomes| && forall j :: 0 <= j < i ==> !Truthy(outcomes[j])
    requires i < |outcomes| ==> Truthy(outcomes[i])
    ensures FirstFound(outcomes) == if i < |outcomes| then (Some(outcomes[i].receipt), i + 1) else (None, |outcomes|)
  {
    var r := FirstFound(outcomes);
    if r.0.Some? {
      assert r.1 - 1 == i;
    }
  }
}
