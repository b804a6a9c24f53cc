/**
 * Form bodies of recorded requests: `key=value` pairs joined by `&`, each
 * part percent-encoded (section 2.1 of RFC 3986). The percent-encoding itself
 * is a pair of functions given to the model: `decode` (None where a text
 * does not decode) and `encode`.
 */
module VcrFormData {
  import opened Wrappers
  import opened Text

  /** A part that does not decode is kept as it is. */
  function DecodeOrRaw(decode: string -> Option<string>, s: string): (r: string)
    ensures decode(s).None? ==> r == s
    ensures decode(s).Some? ==> r == decode(s).value
  {
    match decode(s)
    case Some(d) => d
    case None => s
  }

  /** The decoded key and value of a pair split at its first `=`; a pair without `=` has none. */
  function PairEntry(decode: string -> Option<string>, pair: string): (r: Option<(string, string)>)
    ensures r.None? <==> '=' !in pair
  {
    match SplitOnce(pair, '=')
    case None => None
    case Some((k, v)) => Some((DecodeOrRaw(decode, k), DecodeOrRaw(decode, v)))
  }

  /** The map after inserting one pair: a later key overwrites. */
  function Insert(decode: string -> Option<string>, params: map<string, string>, pair: string): map<string, string> {
    match PairEntry(decode, pair)
    case None => params
    case Some((k, v)) => params[k := v]
  }

  /** The pairs inserted in order into `params`. */
  function InsertAll(decode: string -> Option<string>, params: map<string, string>, pairs: seq<string>): map<string, string>
    decreases |pairs|
  {
    if pairs == [] then params else InsertAll(decode, Insert(decode, params, pairs[0]), pairs[1..])
  }

  /** What `parse_form_data` computes. */
  function ParsedForm(decode: string -> Option<string>, data: string): map<string, string> {
    InsertAll(decode, map[], Split(data, '&'))
  }

  /** `parse_form_data`. */
  method ParseFormData(decode: string -> Option<string>, data: string) returns (params: map<string, string>)
    ensures params == ParsedForm(decode, data)
  {
    params := map[];
    var pairs := Split(data, '&');
    for i := 0 to |pairs|
      invariant InsertAll(decode, map[], pairs) == InsertAll(decode, params, pairs[i..])
    {
      assert pairs[i..][1..] == pairs[i + 1..];
      var entry := SplitOnce(pairs[i], '=');
      if entry.Some? {
        var (key, value) := entry.value;
        params := params[DecodeOrRaw(decode, key) := DecodeOrRaw(decode, value)];
      }
    }
  }

  /**
   * A reference reading of the same pairs, scanning from the last one back:
   * the value of `k` is that of the last pair with key `k`, else its value in
   * `params`.
   */
  function LastValue(decode: string -> Option<string>, params: map<string, string>, pairs: seq<string>, k: string): Option<string>
    decreases |pairs|
  {
    if pairs == [] then (if k in params then Some(params[k]) else None)
    else
      var last := PairEntry(decode, pairs[|pairs| - 1]);
      if last.Some? && last.value.0 == k then Some(last.value.1)
      else LastValue(decode, params, pairs[..|pairs| - 1], k)
  }

  lemma {:induction false} InsertAllSnoc(decode: string -> Option<string>, params: map<string, string>,
                                         pairs: seq<string>, pair: string)
    ensures InsertAll(decode, params, pairs + [pair]) == Insert(decode, InsertAll(decode, params, pairs), pair)
    decreases |pairs|
  {
    if pairs == [] {
      assert (pairs + [pair])[1..] == [];
    } else {
      assert (pairs + [pair])[1..] == pairs[1..] + [pair];
      InsertAllSnoc(decode, Insert(decode, params, pairs[0]), pairs[1..], pair);
    }
  }

  /**
   * The parsed map holds exactly the keys of the pairs that have an `=`, each
   * with the value of its last pair: later duplicates overwrite earlier ones.
   */
  lemma {:induction false} InsertAllLastWins(decode: string -> Option<string>, params: map<string, string>,
                                             pairs: seq<string>, k: string)
    ensures var m := InsertAll(decode, params, pairs);
      (k in m <==> LastValue(decode, params, pairs, k).Some?)
      && (k in m ==> m[k] == LastValue(decode, params, pairs, k).value)
    decreases |pairs|
  {
    if pairs != [] {
      var init := pairs[..|pairs| - 1];
      assert pairs == init + [pairs[|pairs| - 1]];
      InsertAllSnoc(decode, params, init, pairs[|pairs| - 1]);
      InsertAllLastWins(decode, params, init, k);
    }
  }

  /** `pair` has an `=` and its key decodes to `k`. */
  predicate DecodesTo(decode: string -> Option<string>, pair: string, k: string) {
    PairEntry(decode, pair).Some? && PairEntry(decode, pair).value.0 == k
  }

  /** A key is parsed exactly when some pair with an `=` decodes to it. */
  lemma {:induction false} LastValueFound(decode: string -> Option<string>, pairs: seq<string>, k: string)
    ensures LastValue(decode, map[], pairs, k).Some? <==> exists i :: 0 <= i < |pairs| && DecodesTo(decode, pairs[i], k)
    decreases |pairs|
  {
    if pairs != [] {
      var n := |pairs| - 1;
      var init := pairs[..n];
      LastValueFound(decode, init, k);
      if DecodesTo(decode, pairs[n], k) {
        assert LastValue(decode, map[], pairs, k).Some?;
      } else {
        assert LastValue(decode, map[], pairs, k) == LastValue(decode, map[], init, k);
        if exists i :: 0 <= i < |pairs| && DecodesTo(decode, pairs[i], k) {
          var i :| 0 <= i < |pairs| && DecodesTo(decode, pairs[i], k);
          assert i < n && init[i] == pairs[i];
        }
        if exists i :: 0 <= i < |init| && DecodesTo(decode, init[i], k) {
          var i :| 0 <= i < |init| && DecodesTo(decode, init[i], k);
          assert pairs[i] == init[i];
        }
      }
    }
  }

  /** `key=value`, both encoded. */
  function EncodedPair(encode: string -> string, k: string, v: string): string {
    encode(k) + "=" + encode(v)
  }

  /** The pairs of a map, in the order its keys are visited. */
  function EncodedPairs(encode: string -> string, params: map<string, string>, order: seq<string>): (r: seq<string>)
    requires forall i :: 0 <= i < |order| ==> order[i] in params
    ensures |r| == |order|
    ensures forall i :: 0 <= i < |order| ==> r[i] == EncodedPair(encode, order[i], params[order[i]])
  {
    seq(|order|, i requires 0 <= i < |order| => EncodedPair(encode, order[i], params[order[i]]))
  }

  /** The keys of a map, each visited once, as a `HashMap` iteration visits them. */
  ghost predicate VisitsEachKeyOnce(params: map<string, string>, order: seq<string>) {
    (forall k :: k in params <==> k in order)
    && forall i, j :: 0 <= i < j < |order| ==> order[i] != order[j]
  }

  /** `encode_form_data`: one encoded `key=value` per entry, joined by `&`. */
  function EncodeFormData(encode: string -> string, params: map<string, string>, order: seq<string>): string
    requires VisitsEachKeyOnce(params, order)
  {
    Join(EncodedPairs(encode, params, order), "&")
  }

  /** An encoding that never emits `&` or `=` and that `decode` undoes. */
  ghost predicate Inverts(encode: string -> string, decode: string -> Option<string>) {
    forall s :: '&' !in encode(s) && '=' !in encode(s) && decode(encode(s)) == Some(s)
  }

  /** With such an encoding, the encoded text splits back into one pair per entry, in order. */
  lemma EncodedSplitsIntoPairs(encode: string -> string, decode: string -> Option<string>,
                               params: map<string, string>, order: seq<string>)
    requires VisitsEachKeyOnce(params, order) && Inverts(encode, decode) && order != []
    ensures Split(EncodeFormData(encode, params, order), '&') == EncodedPairs(encode, params, order)
  {
    var pairs := EncodedPairs(encode, params, order);
    forall i | 0 <= i < |pairs| ensures '&' !in pairs[i] {
      var k := order[i];
      assert pairs[i] == encode(k) + "=" + encode(params[k]);
      assert '&' !in encode(k) && '&' !in encode(params[k]);
    }
    SplitJoin(pairs, '&');
  }

  lemma EncodedPairEntry(encode: string -> string, decode: string -> Option<string>, k: string, v: string)
    requires Inverts(encode, decode)
    ensures PairEntry(decode, EncodedPair(encode, k, v)) == Some((k, v))
  {
    var p := EncodedPair(encode, k, v);
    var ek := encode(k);
    assert '=' !in ek && decode(ek) == Some(k) && decode(encode(v)) == Some(v);
    assert p[|ek|] == '=';
    var (a, b) := SplitOnce(p, '=').value;
    assert p[..|ek|] == ek;
    assert a == ek && b == encode(v) by {
      assert a + "=" + b == p;
      assert p[..|a|] == a;
      assert |a| == |ek|;
    }
  }

  /** Scanning the encoded pairs back finds each visited key with its value, and no other key. */
  lemma {:induction false} LastValueEncoded(encode: string -> string, decode: string -> Option<string>,
                                            params: map<string, string>, order: seq<string>, k: string)
    requires Inverts(encode, decode)
    requires forall i :: 0 <= i < |order| ==> order[i] in params
    ensures LastValue(decode, map[], EncodedPairs(encode, params, order), k)
         == if k in order then Some(params[k]) else None
    decreases |order|
  {
    if order != [] {
      var init := order[..|order| - 1];
      var last := order[|order| - 1];
      var pairs := EncodedPairs(encode, params, order);
      assert pairs[..|pairs| - 1] == EncodedPairs(encode, params, init);
      assert PairEntry(decode, pairs[|pairs| - 1]) == Some((last, params[last])) by {
        EncodedPairEntry(encode, decode, last, params[last]);
      }
      assert (k in order) == (k == last || k in init) by {
        assert order == init + [last];
      }
      LastValueEncoded(encode, decode, params, init, k);
    }
  }

  /**
   * `parse_form_data(encode_form_data(m)) == m`: parsing gives back the map,
   * whatever order the keys were visited in, when the percent-encoding
   * escapes `&` and `=` and decoding undoes it.
   */
  lemma FormDataRoundTrip(encode: string -> string, decode: string -> Option<string>,
                          params: map<string, string>, order: seq<string>)
    requires VisitsEachKeyOnce(params, order) && Inverts(encode, decode)
    ensures ParsedForm(decode, EncodeFormData(encode, params, order)) == params
  {
    var parsed := ParsedForm(decode, EncodeFormData(encode, params, order));
    if order == [] {
      assert params == map[];
      assert EncodeFormData(encode, params, order) == "";
      assert Split("", '&') == [""];
    } else {
      var pairs := EncodedPairs(encode, params, order);
      EncodedSplitsIntoPairs(encode, decode, params, order);
      forall k ensures (k in parsed <==> k in params) && (k in parsed ==> parsed[k] == params[k]) {
        InsertAllLastWins(decode, map[], pairs, k);
        LastValueEncoded(encode, decode, params, order, k);
      }
    }
  }
}
