/**
 * The early add-receipt view: the three receipt parameters searched for in the text of
 * a QR code, and the registry request repeated for as long as it answers 202.
 */
module EarlyViews {
  import opened Base
  import opened Text
  import opened Retrievers
  import opened Polling

  /** Seconds the view sleeps after a 202 before asking again. */
  const RetryDelaySeconds: nat := 3

  /** `pattern` of `re.search(pattern, text)` matches at `j`: `key` followed by a digit. */
  predicate MatchesAt(text: string, key: string, j: nat)
  {
    j + |key| < |text| && text[j..j + |key|] == key && IsDigit(text[j + |key|])
  }

  /** The length of the digit run starting at `from`: what the greedy `\d+` takes. */
  function DigitRun(text: string, from: nat): (n: nat)
    requires from <= |text|
    ensures from + n <= |text| && AllDigits(text[from..from + n])
    ensures from + n == |text| || !IsDigit(text[from + n])
    decreases |text| - from
  {
    if from < |text| && IsDigit(text[from]) then
      var rest := DigitRun(text, from + 1);
      assert text[from..from + 1 + rest] == [text[from]] + text[from + 1..from + 1 + rest];
      1 + rest
    else 0
  }

  /** Where the leftmost match at or after `j` starts, scanning left to right as `re.search` does. */
  function FirstMatchFrom(text: string, key: string, j: nat): (r: Option<nat>)
    ensures r.Some? ==> j <= r.value && MatchesAt(text, key, r.value)
    ensures r.Some? ==> forall l :: j <= l < r.value ==> !MatchesAt(text, key, l)
    ensures r.None? ==> forall l :: j <= l ==> !MatchesAt(text, key, l)
    decreases |text| - j
  {
    if j >= |text| then None
    else if MatchesAt(text, key, j) then Some(j)
    else FirstMatchFrom(text, key, j + 1)
  }

  /** `re.search(key + r'(\d+)', text).group(1)`: the digits after the leftmost match. */
  function Search(text: string, key: string): (r: Option<string>)
    ensures r.Some? ==> |r.value| > 0 && AllDigits(r.value)
  {
    match FirstMatchFrom(text, key, 0)
    case None => None
    case Some(m) => Some(text[m + |key|..m + |key| + DigitRun(text, m + |key|)])
  }

  /**
   * `_get_receipt_params_from_qr`: the fiscal drive number, the document number and the
   * fiscal sign, or `None` for the one error raised when any of them is missing.
   */
  function ParamsFromQr(text: string): Option<(string, string, string)>
  {
    match (Search(text, "fn="), Search(text, "i="), Search(text, "fp="))
    case (Some(fn), Some(i), Some(fp)) => Some((fn, i, fp))
    case _ => None
  }

  /**
   * A value is found exactly when some match exists, and the first match anywhere
   * decides it, whatever follows.
   */
  lemma FirstMatchDecides(text: string, key: string, m: nat)
    ensures Search(text, key).Some? <==> exists l :: 0 <= l && MatchesAt(text, key, l)
    ensures MatchesAt(text, key, m) && (forall l :: 0 <= l < m ==> !MatchesAt(text, key, l)) ==>
      Search(text, key) == Some(text[m + |key|..m + |key| + DigitRun(text, m + |key|)])
  {
    var first := FirstMatchFrom(text, key, 0);
    if first.Some? {
      assert MatchesAt(text, key, first.value);
    }
  }

  /** A digit run of length `len` closed by the end of the text or a non-digit is the run. */
  lemma {:induction false} DigitRunExact(text: string, from: nat, len: nat)
    requires from + len <= |text| && AllDigits(text[from..from + len])
    requires from + len == |text| || !IsDigit(text[from + len])
    ensures DigitRun(text, from) == len
    decreases len
  {
    if len > 0 {
      assert text[from..from + len][0] == text[from];
      assert text[from + 1..from + len] == text[from..from + len][1..];
      DigitRunExact(text, from + 1, len - 1);
    }
  }

  /**
   * A text holding `key` followed by a digit string closed by the end of the text or a
   * non-digit, and no earlier match, yields exactly that digit string.
   */
  lemma KeyThenDigits(before: string, key: string, digits: string, after: string)
    requires |digits| > 0 && AllDigits(digits) && (after == [] || !IsDigit(after[0]))
    requires forall l :: 0 <= l < |before| ==> !MatchesAt(before + key + digits + after, key, l)
    ensures Search(before + key + digits + after, key) == Some(digits)
  {
    var text := before + key + digits + after;
    var m := |before|;
    var from := m + |key|;
    assert text[m..from] == key;
    assert text[from..from + |digits|] == digits;
    assert text[from] == digits[0];
    if after != [] {
      assert text[from + |digits|] == after[0];
    }
    DigitRunExact(text, from, |digits|);
    FirstMatchDecides(text, key, m);
  }

  /**
   * `_get_receipt_json`: however many 202 answers come first, they are slept over one by
   * one; the first other answer ends the loop, its body on 200, an error otherwise, and
   * the loop never gives up on its own.
   */
  lemma {:induction false} UnlimitedPolling<B>(network: seq<Response<B>>, i: nat, j: nat)
    requires i <= j <= |network| && forall l :: i <= l < j ==> network[l].status == ACCEPTED
    requires j == |network| || network[j].status != ACCEPTED
    ensures var p := PollForever(network, i);
      && p.requests == j + 1 && p.sleeps == j
      && (j == |network| ==> p.fetch == FetchFailed(ConnectionError))
      && (j < |network| && network[j].status == OK ==> p.fetch == Fetched(network[j].body))
      && (j < |network| && network[j].status != OK ==> p.fetch == FetchFailed(BadResponse(network[j].status)))
    decreases j - i
  {
    if i < j {
      UnlimitedPolling(network, i + 1, j);
    }
  }
}
