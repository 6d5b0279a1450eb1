/**
 * The text of a receipt's QR code (`t=...&s=...&fn=...&i=...&fp=...&n=...`) decoded into
 * the receipt's parameters. The decoder is total: every problem gives `None`.
 */
module QrCode {
  import opened Base
  import opened Text
  import opened Decimals
  import opened DateTimes
  import opened Lib

  /** How one search for a key ends: the mapped value, or the exception that leaves the search. */
  datatype Lookup<T> =
    | Value(value: T)
    | Unpacking   // a part without `=` was reached first: unpacking it into key and value fails
    | Rejected    // the key was found but its mapper refused the value ("cannot parse field")
    | Absent      // every part was stepped over ("no field found")

  /** The keys the decoder needs, in the order it looks them up. */
  const RequiredKeys: seq<string> := ["fn", "i", "fp", "t", "s"]

  // ---------------------------------------------------------------- value mappers

  /** `int(value)`, restricted to plain digit strings. */
  function ParseInt(s: string): (r: Option<nat>)
    ensures r.Some? <==> |s| > 0 && AllDigits(s)
  {
    if |s| > 0 && AllDigits(s) then Some(DigitsValue(s)) else None
  }

  /** Every number's decimal text reads back as that number. */
  lemma ParseIntText(n: nat)
    ensures ParseInt(NatToString(n)) == Some(n)
  {
    NatToStringValue(n);
  }

  /** `datetime.strptime(value, '%Y%m%dT%H%M%S')`. */
  function ParseCreated(s: string): Option<DateTime>
  {
    Strptime(s, QrFormat)
  }

  /** `Decimal(value)`. */
  function ParseAmount(s: string): Option<Dec>
  {
    ParseDecimal(s)
  }

  /** Whether the mapper of the required key `name` accepts `value`. */
  predicate Accepts(name: string, value: string)
  {
    if name == "t" then ParseCreated(value).Some?
    else if name == "s" then ParseAmount(value).Some?
    else ParseInt(value).Some?
  }

  // ---------------------------------------------------------------- splitting

  /** Each segment split at its first `=`. */
  function SplitPairs(segs: seq<string>): (parts: seq<seq<string>>)
    ensures |parts| == |segs|
    ensures forall k :: 0 <= k < |segs| ==> parts[k] == SplitOnce(segs[k], '=')
  {
    seq(|segs|, k requires 0 <= k < |segs| => SplitOnce(segs[k], '='))
  }

  /** The `&`-separated segments of the text, each split at its first `=`. */
  function Parts(text: string): seq<seq<string>>
  {
    SplitPairs(SplitAll(text, '&'))
  }

  /** One `key=value` segment. */
  function Pair(key: string, value: string): string
  {
    key + ['='] + value
  }

  lemma SplitPairsAppend(a: seq<string>, b: seq<string>)
    ensures SplitPairs(a + b) == SplitPairs(a) + SplitPairs(b)
  {
  }

  // ---------------------------------------------------------------- the search

  /** `_get_field`: walk the parts in order, unpacking each, until the key `name` turns up. */
  function GetField<T>(parts: seq<seq<string>>, name: string, mapper: string -> Option<T>): Lookup<T>
  {
    if parts == [] then Absent
    else if |parts[0]| != 2 then Unpacking
    else if parts[0][0] != name then GetField(parts[1..], name, mapper)
    else match mapper(parts[0][1])
      case Some(v) => Value(v)
      case None => Rejected
  }

  /** Part `k` is a pair whose key is `name`. */
  predicate KeyAt(parts: seq<seq<string>>, name: string, k: nat)
  {
    k < |parts| && |parts[k]| == 2 && parts[k][0] == name
  }

  /** Every part before `k` is a pair with a key other than `name`. */
  predicate StepsOver(parts: seq<seq<string>>, name: string, k: nat)
  {
    k <= |parts| && forall j :: 0 <= j < k ==> |parts[j]| == 2 && parts[j][0] != name
  }

  /** Part `k` is the first occurrence of `name`, reached by the search. */
  predicate Finds(parts: seq<seq<string>>, name: string, k: nat)
  {
    StepsOver(parts, name, k) && KeyAt(parts, name, k)
  }

  /** The search stops, inside the parts, at part `k`: the key, or a part without `=`. */
  predicate StopsAt(parts: seq<seq<string>>, name: string, k: nat)
  {
    StepsOver(parts, name, k) && k < |parts| && (|parts[k]| != 2 || parts[k][0] == name)
  }

  lemma StepsOverTail(parts: seq<seq<string>>, name: string, k: nat)
    requires 0 < k && StepsOver(parts, name, k)
    ensures StepsOver(parts[1..], name, k - 1)
  {
    forall j | 0 <= j < k - 1 ensures |parts[1..][j]| == 2 && parts[1..][j][0] != name {
      assert parts[1..][j] == parts[j + 1];
    }
  }

  /** Stepping over the first `k` parts does not change the outcome. */
  lemma {:induction false} GetFieldSkips<T>(parts: seq<seq<string>>, name: string, mapper: string -> Option<T>, k: nat)
    requires StepsOver(parts, name, k)
    ensures GetField(parts, name, mapper) == GetField(parts[k..], name, mapper)
    decreases k
  {
    if k > 0 {
      assert |parts[0]| == 2 && parts[0][0] != name;
      StepsOverTail(parts, name, k);
      GetFieldSkips(parts[1..], name, mapper, k - 1);
      assert parts[1..][k - 1..] == parts[k..];
    }
  }

  /**
   * The outcome is decided where the search stops: the first occurrence of the key gives its
   * mapped value (or Rejected), a part without `=` gives Unpacking, the end gives Absent.
   */
  lemma GetFieldAt<T>(parts: seq<seq<string>>, name: string, mapper: string -> Option<T>, k: nat)
    requires StepsOver(parts, name, k)
    ensures KeyAt(parts, name, k) && mapper(parts[k][1]).Some? ==>
      GetField(parts, name, mapper) == Value(mapper(parts[k][1]).value)
    ensures KeyAt(parts, name, k) && mapper(parts[k][1]).None? ==> GetField(parts, name, mapper) == Rejected
    ensures k < |parts| && |parts[k]| != 2 ==> GetField(parts, name, mapper) == Unpacking
    ensures k == |parts| ==> GetField(parts, name, mapper) == Absent
  {
    GetFieldSkips(parts, name, mapper, k);
  }

  /** Where the search stops: every outcome has a stopping point explaining it. */
  lemma {:induction false} GetFieldStop<T>(parts: seq<seq<string>>, name: string, mapper: string -> Option<T>)
    returns (k: nat)
    ensures StepsOver(parts, name, k)
    ensures k == |parts| || |parts[k]| != 2 || parts[k][0] == name
    decreases |parts|
  {
    if parts == [] || |parts[0]| != 2 || parts[0][0] == name {
      k := 0;
    } else {
      var j := GetFieldStop(parts[1..], name, mapper);
      k := j + 1;
      forall i | 0 <= i < k ensures |parts[i]| == 2 && parts[i][0] != name {
        if i > 0 { assert parts[i] == parts[1..][i - 1]; }
      }
    }
  }

  /** The first occurrence of a key is unique. */
  lemma FindsUnique(parts: seq<seq<string>>, name: string, k1: nat, k2: nat)
    requires Finds(parts, name, k1) && Finds(parts, name, k2)
    ensures k1 == k2
  {
  }

  /** The search yields `v` exactly when the first occurrence of the key maps to `v`. */
  lemma GetFieldValue<T>(parts: seq<seq<string>>, name: string, mapper: string -> Option<T>, v: T)
    ensures GetField(parts, name, mapper) == Value(v) <==>
      exists k: nat :: Finds(parts, name, k) && mapper(parts[k][1]) == Some(v)
  {
    var k := GetFieldStop(parts, name, mapper);
    GetFieldAt(parts, name, mapper, k);
    if exists k': nat :: Finds(parts, name, k') && mapper(parts[k'][1]) == Some(v) {
      var k': nat :| Finds(parts, name, k') && mapper(parts[k'][1]) == Some(v);
      GetFieldAt(parts, name, mapper, k');
    }
    if GetField(parts, name, mapper) == Value(v) {
      assert Finds(parts, name, k) && mapper(parts[k][1]) == Some(v);
    }
  }

  /** Without any occurrence of the key the search cannot yield a value. */
  lemma GetFieldNoKey<T>(parts: seq<seq<string>>, name: string, mapper: string -> Option<T>)
    requires forall k: nat :: !KeyAt(parts, name, k)
    ensures !GetField(parts, name, mapper).Value?
  {
    var k := GetFieldStop(parts, name, mapper);
    assert !KeyAt(parts, name, k);
    GetFieldAt(parts, name, mapper, k);
  }

  /** A first occurrence that the mapper refuses leaves the search without a value. */
  lemma GetFieldRefused<T>(parts: seq<seq<string>>, name: string, mapper: string -> Option<T>, k: nat)
    requires Finds(parts, name, k) && mapper(parts[k][1]).None?
    ensures GetField(parts, name, mapper) == Rejected
  {
    GetFieldAt(parts, name, mapper, k);
  }

  /** Whatever follows the stopping point is never consulted. */
  lemma GetFieldAppend<T>(p: seq<seq<string>>, q: seq<seq<string>>, name: string,
                          mapper: string -> Option<T>, k: nat)
    requires StopsAt(p, name, k)
    ensures GetField(p + q, name, mapper) == GetField(p, name, mapper)
  {
    assert StepsOver(p + q, name, k) by {
      forall j | 0 <= j < k ensures |(p + q)[j]| == 2 && (p + q)[j][0] != name {
        assert (p + q)[j] == p[j];
      }
    }
    GetFieldSkips(p, name, mapper, k);
    GetFieldSkips(p + q, name, mapper, k);
    assert (p + q)[k..][0] == p[k..][0];
  }

  /** Two neighbouring pairs with different keys can be exchanged without changing any search. */
  lemma {:induction false} GetFieldSwap<T>(parts: seq<seq<string>>, name: string,
                                           mapper: string -> Option<T>, i: nat)
    requires i + 1 < |parts| && |parts[i]| == 2 && |parts[i + 1]| == 2
    requires parts[i][0] != parts[i + 1][0]
    ensures GetField(parts[..i] + [parts[i + 1], parts[i]] + parts[i + 2..], name, mapper) ==
            GetField(parts, name, mapper)
    decreases i
  {
    var swapped := parts[..i] + [parts[i + 1], parts[i]] + parts[i + 2..];
    if i == 0 {
      assert swapped == [parts[1], parts[0]] + parts[2..];
      assert swapped[1..][1..] == parts[2..] == parts[1..][1..];
    } else {
      assert swapped[0] == parts[0];
      var tail := parts[1..];
      GetFieldSwap(tail, name, mapper, i - 1);
      assert swapped[1..] == tail[..i - 1] + [tail[i], tail[i - 1]] + tail[i + 1..];
    }
  }

  /** A segment `key=value` is the pair (key, value) even when the value holds `=`. */
  lemma GetFieldFirstSegment<T>(key: string, value: string, rest: seq<string>, mapper: string -> Option<T>)
    requires '=' !in key
    ensures GetField(SplitPairs([Pair(key, value)] + rest), key, mapper) ==
      match mapper(value) case Some(v) => Value(v) case None => Rejected
  {
    SplitOnceAt(key, value, '=');
    assert SplitPairs([Pair(key, value)] + rest)[0] == [key, value];
  }

  // ---------------------------------------------------------------- decode

  /** The five searches over the split text: all found and accepted, else `None`. */
  function DecodeParts(parts: seq<seq<string>>): Option<ReceiptParams>
  {
    match (GetField(parts, "fn", ParseInt), GetField(parts, "i", ParseInt), GetField(parts, "fp", ParseInt),
           GetField(parts, "t", ParseCreated), GetField(parts, "s", ParseAmount))
    case (Value(fn), Value(i), Value(fp), Value(t), Value(s)) => Some(ReceiptParams(fn, i, fp, t, s))
    case _ => None
  }

  /** `decode(text)`. */
  function Decode(text: string): Option<ReceiptParams>
  {
    DecodeParts(Parts(text))
  }

  /** A decode succeeds only when every one of the five searches yields a value. */
  lemma DecodeNeedsAll(parts: seq<seq<string>>)
    ensures DecodeParts(parts).Some? ==>
      GetField(parts, "fn", ParseInt).Value? && GetField(parts, "i", ParseInt).Value? &&
      GetField(parts, "fp", ParseInt).Value? && GetField(parts, "t", ParseCreated).Value? &&
      GetField(parts, "s", ParseAmount).Value?
  {
  }

  /**
   * The decoded parameters are exactly the mapped values of the first occurrences of the
   * five keys, and `Decode` succeeds iff every key has such an occurrence.
   */
  lemma DecodeSpec(text: string, p: ReceiptParams)
    ensures Decode(text) == Some(p) <==>
      var parts := Parts(text);
      (exists k: nat :: Finds(parts, "fn", k) && ParseInt(parts[k][1]) == Some(p.fiscalDriveNumber)) &&
      (exists k: nat :: Finds(parts, "i", k) && ParseInt(parts[k][1]) == Some(p.fiscalDocumentNumber)) &&
      (exists k: nat :: Finds(parts, "fp", k) && ParseInt(parts[k][1]) == Some(p.fiscalSign)) &&
      (exists k: nat :: Finds(parts, "t", k) && ParseCreated(parts[k][1]) == Some(p.created)) &&
      (exists k: nat :: Finds(parts, "s", k) && ParseAmount(parts[k][1]) == Some(p.amount))
  {
    var parts := Parts(text);
    GetFieldValue(parts, "fn", ParseInt, p.fiscalDriveNumber);
    GetFieldValue(parts, "i", ParseInt, p.fiscalDocumentNumber);
    GetFieldValue(parts, "fp", ParseInt, p.fiscalSign);
    GetFieldValue(parts, "t", ParseCreated, p.created);
    GetFieldValue(parts, "s", ParseAmount, p.amount);
  }

  /** A required key that no segment carries makes the decode `None`. */
  lemma DecodeMissing(text: string, name: string)
    requires name in RequiredKeys
    requires forall k: nat :: !KeyAt(Parts(text), name, k)
    ensures Decode(text) == None
  {
    var parts := Parts(text);
    if name == "fn" || name == "i" || name == "fp" {
      GetFieldNoKey(parts, name, ParseInt);
    } else if name == "t" {
      GetFieldNoKey(parts, name, ParseCreated);
    } else {
      GetFieldNoKey(parts, name, ParseAmount);
    }
  }

  /** A required key whose first occurrence its mapper refuses makes the decode `None`. */
  lemma DecodeRejected(text: string, name: string, k: nat)
    requires name in RequiredKeys
    requires Finds(Parts(text), name, k) && !Accepts(name, Parts(text)[k][1])
    ensures Decode(text) == None
  {
    DecodePartsRejected(Parts(text), name, k);
  }

  lemma DecodePartsRejected(parts: seq<seq<string>>, name: string, k: nat)
    requires name in RequiredKeys
    requires Finds(parts, name, k) && !Accepts(name, parts[k][1])
    ensures DecodeParts(parts) == None
  {
    DecodeNeedsAll(parts);
    if name == "fn" || name == "i" || name == "fp" {
      GetFieldRefused(parts, name, ParseInt, k);
    } else if name == "t" {
      GetFieldRefused(parts, name, ParseCreated, k);
    } else {
      GetFieldRefused(parts, name, ParseAmount, k);
    }
  }

  /** A segment without `=` that some search must step past makes the decode `None`. */
  lemma DecodeUnpacking(text: string, name: string, k: nat)
    requires name in RequiredKeys
    requires StepsOver(Parts(text), name, k) && k < |Parts(text)| && |Parts(text)[k]| != 2
    ensures Decode(text) == None
  {
    var parts := Parts(text);
    if name == "fn" || name == "i" || name == "fp" {
      GetFieldAt(parts, name, ParseInt, k);
    } else if name == "t" {
      GetFieldAt(parts, name, ParseCreated, k);
    } else {
      GetFieldAt(parts, name, ParseAmount, k);
    }
  }

  /** The empty text is one segment without `=`, so every search fails on it. */
  lemma DecodeEmpty()
    ensures Decode("") == None
  {
    assert SplitAll("", '&') == [""];
    DecodeUnpacking("", "fn", 0);
  }

  /**
   * Anything appended after the point where every key's search stops is ignored, including
   * later duplicates of a key whose first value was refused.
   */
  lemma DecodeIgnoresTail(a: string, b: string)
    requires forall name :: name in RequiredKeys ==> exists k: nat :: StopsAt(Parts(a), name, k)
    ensures Decode(a + "&" + b) == Decode(a)
  {
    SplitAllAppend(a, b, '&');
    SplitPairsAppend(SplitAll(a, '&'), SplitAll(b, '&'));
    DecodePartsAppend(Parts(a), Parts(b));
  }

  lemma DecodePartsAppend(p: seq<seq<string>>, q: seq<seq<string>>)
    requires forall name :: name in RequiredKeys ==> exists k: nat :: StopsAt(p, name, k)
    ensures DecodeParts(p + q) == DecodeParts(p)
  {
    assert "fn" in RequiredKeys && "i" in RequiredKeys && "fp" in RequiredKeys;
    assert "t" in RequiredKeys && "s" in RequiredKeys;
    var k1: nat :| StopsAt(p, "fn", k1);
    GetFieldAppend(p, q, "fn", ParseInt, k1);
    var k2: nat :| StopsAt(p, "i", k2);
    GetFieldAppend(p, q, "i", ParseInt, k2);
    var k3: nat :| StopsAt(p, "fp", k3);
    GetFieldAppend(p, q, "fp", ParseInt, k3);
    var k4: nat :| StopsAt(p, "t", k4);
    GetFieldAppend(p, q, "t", ParseCreated, k4);
    var k5: nat :| StopsAt(p, "s", k5);
    GetFieldAppend(p, q, "s", ParseAmount, k5);
  }

  /** The key of a segment: what comes before its first `=`. */
  function KeyOf(seg: string): string
  {
    SplitOnce(seg, '=')[0]
  }

  /** Exchanging two neighbouring `key=value` segments with different keys does not change the result. */
  lemma DecodeSwap(segs: seq<string>, i: nat)
    requires forall k :: 0 <= k < |segs| ==> '&' !in segs[k]
    requires i + 1 < |segs| && '=' in segs[i] && '=' in segs[i + 1] && KeyOf(segs[i]) != KeyOf(segs[i + 1])
    ensures Decode(Join(segs[..i] + [segs[i + 1], segs[i]] + segs[i + 2..], "&")) == Decode(Join(segs, "&"))
  {
    var swapped := segs[..i] + [segs[i + 1], segs[i]] + segs[i + 2..];
    SwappedClean(segs, i, '&');
    SplitAllJoin(segs, '&');
    SplitAllJoin(swapped, '&');
    var parts := SplitPairs(segs);
    SplitPairsSwap(segs, i);
    DecodePartsSwap(parts, i);
  }

  lemma SwappedClean(segs: seq<string>, i: nat, c: char)
    requires forall k :: 0 <= k < |segs| ==> c !in segs[k]
    requires i + 1 < |segs|
    ensures var swapped := segs[..i] + [segs[i + 1], segs[i]] + segs[i + 2..];
      forall k :: 0 <= k < |swapped| ==> c !in swapped[k]
  {
    var swapped := segs[..i] + [segs[i + 1], segs[i]] + segs[i + 2..];
    forall k | 0 <= k < |swapped| ensures c !in swapped[k] {
      if k < i { assert swapped[k] == segs[k]; }
      else if k == i { assert swapped[k] == segs[i + 1]; }
      else if k == i + 1 { assert swapped[k] == segs[i]; }
      else { assert swapped[k] == segs[k]; }
    }
  }

  lemma SplitPairsSwap(segs: seq<string>, i: nat)
    requires i + 1 < |segs|
    ensures var parts := SplitPairs(segs);
      SplitPairs(segs[..i] + [segs[i + 1], segs[i]] + segs[i + 2..]) ==
      parts[..i] + [parts[i + 1], parts[i]] + parts[i + 2..]
  {
    var parts := SplitPairs(segs);
    var a := SplitPairs(segs[..i] + [segs[i + 1], segs[i]] + segs[i + 2..]);
    var b := parts[..i] + [parts[i + 1], parts[i]] + parts[i + 2..];
    assert |a| == |b|;
    forall k | 0 <= k < |a| ensures a[k] == b[k] {
      if k < i { assert a[k] == SplitOnce(segs[k], '='); }
      else if k == i { assert a[k] == SplitOnce(segs[i + 1], '='); }
      else if k == i + 1 { assert a[k] == SplitOnce(segs[i], '='); }
      else { assert a[k] == SplitOnce(segs[k], '='); }
    }
  }

  lemma DecodePartsSwap(parts: seq<seq<string>>, i: nat)
    requires i + 1 < |parts| && |parts[i]| == 2 && |parts[i + 1]| == 2
    requires parts[i][0] != parts[i + 1][0]
    ensures DecodeParts(parts[..i] + [parts[i + 1], parts[i]] + parts[i + 2..]) == DecodeParts(parts)
  {
    GetFieldSwap(parts, "fn", ParseInt, i);
    GetFieldSwap(parts, "i", ParseInt, i);
    GetFieldSwap(parts, "fp", ParseInt, i);
    GetFieldSwap(parts, "t", ParseCreated, i);
    GetFieldSwap(parts, "s", ParseAmount, i);
  }

  // ---------------------------------------------------------------- the example payload

  /**
   * A payload in the layout a receipt prints, keys in the order `t`, `s`, `fn`, `i`, `fp`,
   * followed by the key `n` the decoder does not know.
   */
  function Encode(p: ReceiptParams): string
    requires Valid(p.created)
  {
    PrintedText(Strftime(p.created, QrFormat), ToString(p.amount), NatToString(p.fiscalDriveNumber),
      NatToString(p.fiscalDocumentNumber), NatToString(p.fiscalSign))
  }

  /** A search reaching the key at part `k` yields the value its mapper gives. */
  lemma GetFieldHit<T>(parts: seq<seq<string>>, name: string, mapper: string -> Option<T>, k: nat, v: T)
    requires Finds(parts, name, k) && mapper(parts[k][1]) == Some(v)
    ensures GetField(parts, name, mapper) == Value(v)
  {
    GetFieldAt(parts, name, mapper, k);
  }

  lemma StepsOverNext(parts: seq<seq<string>>, name: string, k: nat)
    requires StepsOver(parts, name, k) && k < |parts| && |parts[k]| == 2 && parts[k][0] != name
    ensures StepsOver(parts, name, k + 1)
  {
  }

  /** The search for `name` in the printed layout reaches part `k` after the keys before it. */
  lemma PrintedLayoutSteps(parts: seq<seq<string>>, name: string, k: nat)
    requires |parts| == 6 && |parts[0]| == 2 && |parts[1]| == 2 && |parts[2]| == 2
    requires |parts[3]| == 2 && |parts[4]| == 2
    requires parts[0][0] == "t" && parts[1][0] == "s" && parts[2][0] == "fn"
    requires parts[3][0] == "i" && parts[4][0] == "fp"
    requires k < 5 && parts[k][0] == name
    ensures Finds(parts, name, k)
  {
    assert StepsOver(parts, name, 0);
    if k > 0 {
      assert "t" != name;
      StepsOverNext(parts, name, 0);
    }
    if k > 1 {
      assert "s" != name;
      StepsOverNext(parts, name, 1);
    }
    if k > 2 {
      assert "fn" != name;
      StepsOverNext(parts, name, 2);
    }
    if k > 3 {
      assert "i" != name;
      StepsOverNext(parts, name, 3);
    }
  }

  /** In the printed layout, the search for the key of part `k` yields that part's mapped value. */
  lemma PrintedField<T>(parts: seq<seq<string>>, name: string, value: string, k: nat,
                        mapper: string -> Option<T>, v: T)
    requires |parts| == 6 && |parts[0]| == 2 && |parts[1]| == 2 && |parts[2]| == 2
    requires |parts[3]| == 2 && |parts[4]| == 2
    requires parts[0][0] == "t" && parts[1][0] == "s" && parts[2][0] == "fn"
    requires parts[3][0] == "i" && parts[4][0] == "fp"
    requires k < 5 && parts[k] == [name, value] && mapper(value) == Some(v)
    ensures GetField(parts, name, mapper) == Value(v)
  {
    PrintedLayoutSteps(parts, name, k);
    GetFieldHit(parts, name, mapper, k, v);
  }

  /** The nested form of the printed parts, element by element. */
  lemma PrintedIndexes(parts: seq<seq<string>>, tv: string, sv: string, fnv: string, iv: string, fpv: string)
    requires parts == [["t", tv]] + ([["s", sv]] + ([["fn", fnv]] + ([["i", iv]] + ([["fp", fpv]] + [["n", "1"]]))))
    ensures |parts| == 6 && parts[0] == ["t", tv] && parts[1] == ["s", sv] && parts[2] == ["fn", fnv]
    ensures parts[3] == ["i", iv] && parts[4] == ["fp", fpv]
  {
  }

  /** The five searches over parts laid out as in the printed payload. */
  lemma DecodePrintedLayout(parts: seq<seq<string>>, p: ReceiptParams,
                            tv: string, sv: string, fnv: string, iv: string, fpv: string)
    requires parts == [["t", tv]] + ([["s", sv]] + ([["fn", fnv]] + ([["i", iv]] + ([["fp", fpv]] + [["n", "1"]]))))
    requires ParseCreated(tv) == Some(p.created) && ParseAmount(sv) == Some(p.amount)
    requires ParseInt(fnv) == Some(p.fiscalDriveNumber) && ParseInt(iv) == Some(p.fiscalDocumentNumber)
    requires ParseInt(fpv) == Some(p.fiscalSign)
    ensures DecodeParts(parts) == Some(p)
  {
    PrintedIndexes(parts, tv, sv, fnv, iv, fpv);
    PrintedField(parts, "t", tv, 0, ParseCreated, p.created);
    PrintedField(parts, "s", sv, 1, ParseAmount, p.amount);
    PrintedField(parts, "fn", fnv, 2, ParseInt, p.fiscalDriveNumber);
    PrintedField(parts, "i", iv, 3, ParseInt, p.fiscalDocumentNumber);
    PrintedField(parts, "fp", fpv, 4, ParseInt, p.fiscalSign);
    DecodePartsFound(parts, p);
  }

  /** Five successful searches give the parameters they found. */
  lemma DecodePartsFound(parts: seq<seq<string>>, p: ReceiptParams)
    requires GetField(parts, "fn", ParseInt) == Value(p.fiscalDriveNumber)
    requires GetField(parts, "i", ParseInt) == Value(p.fiscalDocumentNumber)
    requires GetField(parts, "fp", ParseInt) == Value(p.fiscalSign)
    requires GetField(parts, "t", ParseCreated) == Value(p.created)
    requires GetField(parts, "s", ParseAmount) == Value(p.amount)
    ensures DecodeParts(parts) == Some(p)
  {
  }

  lemma DigitsAvoid(s: string, c: char)
    requires AllDigits(s) && !IsDigit(c)
    ensures c !in s
  {
  }

  /** `str(Decimal)` never writes `&`. */
  lemma ToStringAvoidsAmpersand(d: Dec)
    ensures '&' !in ToString(d)
  {
    var digits := NatToString(d.coef);
    var left := d.exp + |digits|;
    DigitsAvoid(digits, '&');
    if d.exp <= 0 && left > -6 {
      if left <= 0 {
        DigitsAvoid(Zeros(-left), '&');
      } else if d.exp != 0 {
        DigitsAvoid(digits[..left], '&');
        DigitsAvoid(digits[left..], '&');
      }
    } else {
      var adjusted := left - 1;
      DigitsAvoid(NatToString(if adjusted >= 0 then adjusted else -adjusted), '&');
      if |digits| > 1 { DigitsAvoid(digits[1..], '&'); }
      assert ToString(d) == ScientificText(digits, adjusted);
    }
  }

  /** The printed layout, for any value texts. */
  function PrintedText(tv: string, sv: string, fnv: string, iv: string, fpv: string): string
  {
    Pair("t", tv) + "&" + (Pair("s", sv) + "&" + (Pair("fn", fnv) + "&" + (Pair("i", iv) + "&" +
      (Pair("fp", fpv) + "&" + Pair("n", "1")))))
  }

  /** A leading `key=value` segment without `&` becomes the first part. */
  lemma PartsCons(key: string, value: string, rest: string)
    requires '&' !in key && '=' !in key && '&' !in value
    ensures Parts(Pair(key, value) + "&" + rest) == [[key, value]] + Parts(rest)
  {
    var seg := Pair(key, value);
    SplitAllAppend(seg, rest, '&');
    SplitAllWithout(seg, '&');
    SplitPairsAppend([seg], SplitAll(rest, '&'));
    SplitOnceAt(key, value, '=');
    assert SplitPairs([seg]) == [[key, value]];
  }

  /** Texts in the printed layout split back into their key-value pairs. */
  lemma PrintedParts(tv: string, sv: string, fnv: string, iv: string, fpv: string)
    requires '&' !in tv && '&' !in sv && '&' !in fnv && '&' !in iv && '&' !in fpv
    ensures Parts(PrintedText(tv, sv, fnv, iv, fpv)) ==
      [["t", tv]] + ([["s", sv]] + ([["fn", fnv]] + ([["i", iv]] + ([["fp", fpv]] + [["n", "1"]]))))
  {
    var r5 := Pair("n", "1");
    var r4 := Pair("fp", fpv) + "&" + r5;
    var r3 := Pair("i", iv) + "&" + r4;
    var r2 := Pair("fn", fnv) + "&" + r3;
    var r1 := Pair("s", sv) + "&" + r2;
    SplitAllWithout(r5, '&');
    SplitOnceAt("n", "1", '=');
    assert Parts(r5) == [["n", "1"]];
    PartsCons("fp", fpv, r5);
    PartsCons("i", iv, r4);
    PartsCons("fn", fnv, r3);
    PartsCons("s", sv, r2);
    PartsCons("t", tv, r1);
  }

  /** A payload in the printed layout decodes to what its value texts are read as. */
  lemma DecodePrinted(tv: string, sv: string, fnv: string, iv: string, fpv: string, p: ReceiptParams)
    requires '&' !in tv && '&' !in sv && '&' !in fnv && '&' !in iv && '&' !in fpv
    requires ParseCreated(tv) == Some(p.created) && ParseAmount(sv) == Some(p.amount)
    requires ParseInt(fnv) == Some(p.fiscalDriveNumber) && ParseInt(iv) == Some(p.fiscalDocumentNumber)
    requires ParseInt(fpv) == Some(p.fiscalSign)
    ensures Decode(PrintedText(tv, sv, fnv, iv, fpv)) == Some(p)
  {
    PrintedParts(tv, sv, fnv, iv, fpv);
    var parts := Parts(PrintedText(tv, sv, fnv, iv, fpv));
    DecodePrintedLayout(parts, p, tv, sv, fnv, iv, fpv);
  }

  /**
   * Every payload printed in the example's layout decodes to the parameters it was printed
   * from; the unknown key `n` plays no part.
   */
  lemma DecodeEncode(p: ReceiptParams)
    requires Valid(p.created)
    ensures Decode(Encode(p)) == Some(p)
  {
    var tv := Strftime(p.created, QrFormat);
    StrftimeAvoids(p.created, QrFormat, '&');
    QrFormatRoundTrip(p.created);
    ToStringAvoidsAmpersand(p.amount);
    ParseToString(p.amount);
    DigitsAvoid(NatToString(p.fiscalDriveNumber), '&');
    DigitsAvoid(NatToString(p.fiscalDocumentNumber), '&');
    DigitsAvoid(NatToString(p.fiscalSign), '&');
    ParseIntText(p.fiscalDriveNumber);
    ParseIntText(p.fiscalDocumentNumber);
    ParseIntText(p.fiscalSign);
    DecodePrinted(tv, ToString(p.amount), NatToString(p.fiscalDriveNumber),
      NatToString(p.fiscalDocumentNumber), NatToString(p.fiscalSign), p);
  }

  /** The example's amount `67.20` is read exactly, and equals 67.2 in value. */
  lemma ExampleAmount()
    ensures ParseAmount("67.20") == Some(Dec(6720, -2))
    ensures SameValue(Dec(6720, -2), Dec(672, -1))
  {
    assert "67" + "20" == "6720";
    assert "6720"[..3] == "672";
    assert "672"[..2] == "67";
    assert "67"[..1] == "6";
    assert "6"[..0] == "";
    assert DigitsValue("6720") == 6720;
    ParsePointAs("67.20", "67", "20", Dec(6720, -2));
  }
}
