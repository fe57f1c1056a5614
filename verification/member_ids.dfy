/** Member-identifier allocation of the gym-bill routes: `generateSequentialId`
    (used by the create route with the prefix "MEM") and the `/last-member-id`
    preview (which reads the prefix "H40"). The store is abstracted as the
    sequence of the `memberId` paths of the stored bills, `None` for a bill
    without one. */
module MemberIds {
  import opened Wrappers
  import opened Text

  /** The prefix the create route allocates under. */
  const CreatePrefix := "MEM"

  /** The prefix the preview route reads. */
  const PreviewPrefix := "H40"

  /** The width `padStart` pads the number to. */
  const PadWidth: nat := 3

  /** The memberIds returned by `find({ memberId: { $regex: "^" + prefix } })`,
      in store order. */
  function QueryByPrefix(prefix: string, ids: seq<Option<string>>): (r: seq<string>)
    ensures forall k :: 0 <= k < |r| ==> StartsWith(r[k], prefix)
    ensures forall k :: 0 <= k < |r| ==> Some(r[k]) in ids
    ensures forall i :: 0 <= i < |ids| && ids[i].Some? && StartsWith(ids[i].value, prefix) ==> ids[i].value in r
  {
    if |ids| == 0 then []
    else
      var rest := QueryByPrefix(prefix, ids[1..]);
      assert forall k :: 0 <= k < |rest| ==> Some(rest[k]) in ids by {
        forall k | 0 <= k < |rest| ensures Some(rest[k]) in ids {
          assert Some(rest[k]) in ids[1..];
        }
      }
      if ids[0].Some? && StartsWith(ids[0].value, prefix) then [ids[0].value] + rest else rest
  }

  /** `s.replace(prefix, "")` for an `s` the query selected: the first
      occurrence of the prefix is the leading one, so this is the rest of `s`. */
  function AfterPrefix(s: string, prefix: string): (r: string)
    ensures StartsWith(s, prefix) ==> s == prefix + r
  {
    if |prefix| <= |s| then s[|prefix|..] else ""
  }

  /** What the allocator reads from one selected memberId: the text after the
      prefix parsed with `parseInt`, with NaN read as 0. */
  function ParsedSuffix(prefix: string, s: string): int {
    match ParseInt(AfterPrefix(s, prefix))
    case NaN => 0
    case Finite(v) => v
  }

  /** What one stored memberId contributes to the allocation: its parsed
      suffix when the query selects it, 0 otherwise. Reading an unselected
      id as 0 is harmless: the `n > 0` filter drops it like the query would. */
  function SuffixValue(prefix: string, id: Option<string>): int {
    if id.Some? && StartsWith(id.value, prefix) then ParsedSuffix(prefix, id.value) else 0
  }

  /** The `records.map(...)` step, over every stored id. */
  function SuffixValues(prefix: string, ids: seq<Option<string>>): (vs: seq<int>)
    ensures |vs| == |ids|
    ensures forall i :: 0 <= i < |ids| ==> vs[i] == SuffixValue(prefix, ids[i])
  {
    if |ids| == 0 then [] else [SuffixValue(prefix, ids[0])] + SuffixValues(prefix, ids[1..])
  }

  /** The `.filter((n) => n > 0)` step: the positive values, in order. */
  function Positives(xs: seq<int>): (ns: seq<int>)
    ensures forall k :: 0 <= k < |ns| ==> ns[k] > 0
    ensures forall k :: 0 <= k < |xs| && xs[k] > 0 ==> xs[k] in ns
    ensures forall v :: v in ns ==> v in xs
  {
    if |xs| == 0 then []
    else
      var rest := Positives(xs[1..]);
      assert forall v :: v in rest ==> v in xs by {
        forall v | v in rest ensures v in xs {
          assert v in xs[1..];
        }
      }
      if xs[0] > 0 then [xs[0]] + rest else rest
  }

  /** `Math.max(...ns)` of a non-empty sequence of integers. */
  function MathMax(ns: seq<int>): (m: int)
    requires |ns| > 0
    ensures m in ns
    ensures forall k :: 0 <= k < |ns| ==> ns[k] <= m
  {
    if |ns| == 1 then ns[0]
    else
      var m := MathMax(ns[1..]);
      if ns[0] >= m then ns[0] else m
  }

  /** `lastId + 1` over the parsed values: one more than the largest positive
      value, 1 when there is none. It exceeds every value and, unless it is 1,
      is one more than one of them. */
  function NextNumber(values: seq<int>): (n: nat)
    ensures n >= 1
    ensures forall k :: 0 <= k < |values| ==> values[k] < n
    ensures n == 1 || n - 1 in values
  {
    var numbers := Positives(values);
    var lastId := if |numbers| > 0 then MathMax(numbers) else 0;
    assert forall k :: 0 <= k < |values| ==> values[k] <= lastId by {
      forall k | 0 <= k < |values| && values[k] > 0 ensures values[k] <= lastId {
        assert values[k] in numbers;
      }
    }
    lastId + 1
  }

  /** The next number is the only one with that characterisation. */
  lemma NextNumberUnique(values: seq<int>, n: int)
    requires n >= 1
    requires forall k :: 0 <= k < |values| ==> values[k] < n
    requires n == 1 || n - 1 in values
    ensures n == NextNumber(values)
  {
  }

  /** The number `generateSequentialId` formats: one more than the largest
      positive suffix under the prefix. */
  function AllocatedNumber(prefix: string, ids: seq<Option<string>>): (n: nat)
    ensures n >= 1
    ensures forall i :: 0 <= i < |ids| ==> SuffixValue(prefix, ids[i]) < n
    ensures n == 1 || exists i :: 0 <= i < |ids| && SuffixValue(prefix, ids[i]) == n - 1
  {
    var vs := SuffixValues(prefix, ids);
    var n := NextNumber(vs);
    assert n == 1 || exists i :: 0 <= i < |ids| && SuffixValue(prefix, ids[i]) == n - 1 by {
      if n != 1 {
        var i :| 0 <= i < |vs| && vs[i] == n - 1;
        assert SuffixValue(prefix, ids[i]) == n - 1;
      }
    }
    n
  }

  /** `generateSequentialId(prefix, "memberId")`: the prefix followed by the
      allocated number padded to three digits. The result starts with the
      prefix, its suffix parses back to the allocated number, and it equals
      no stored memberId. */
  function NextSequentialId(prefix: string, ids: seq<Option<string>>): (r: string)
    ensures StartsWith(r, prefix)
    ensures ParseInt(AfterPrefix(r, prefix)) == Finite(AllocatedNumber(prefix, ids))
    ensures forall i :: 0 <= i < |ids| ==> ids[i] != Some(r)
  {
    var n := AllocatedNumber(prefix, ids);
    var r := prefix + PadStart(NatToString(n), PadWidth, '0');
    assert AfterPrefix(r, prefix) == PadStart(NatToString(n), PadWidth, '0');
    ParseIntOfPadded(n, PadWidth);
    r
  }

  /** With no positive suffix (an empty store included) the first identifier
      is the prefix followed by "001". */
  lemma FirstIdIs001(prefix: string, ids: seq<Option<string>>)
    requires forall i :: 0 <= i < |ids| ==> SuffixValue(prefix, ids[i]) <= 0
    ensures NextSequentialId(prefix, ids) == prefix + "001"
  {
    var vs := SuffixValues(prefix, ids);
    NextNumberUnique(vs, 1);
    assert NatToString(1) == "1";
  }

  /** Padding never truncates: from 100 on the number appears unpadded. */
  lemma LargeNumbersUnpadded(prefix: string, ids: seq<Option<string>>)
    requires AllocatedNumber(prefix, ids) >= 100
    ensures NextSequentialId(prefix, ids) == prefix + NatToString(AllocatedNumber(prefix, ids))
  {
    NatToStringLong(AllocatedNumber(prefix, ids));
  }

  lemma NatToStringLong(n: nat)
    requires n >= 100
    ensures |NatToString(n)| >= PadWidth
  {
    var a := n / 10;
    assert a >= 10;
    NatToStringStep(n);
    NatToStringStep(a);
  }

  /** Dropping the last digit shortens the decimal text by one character. */
  lemma NatToStringStep(n: nat)
    requires n >= 10
    ensures |NatToString(n)| == |NatToString(n / 10)| + 1
  {
  }

  /** The identifier depends on the store only through the allocated number. */
  lemma IdOfNumber(prefix: string, ids: seq<Option<string>>)
    ensures NextSequentialId(prefix, ids) == prefix + PadStart(NatToString(AllocatedNumber(prefix, ids)), PadWidth, '0')
  {
  }

  /** A stored memberId whose suffix is malformed or not positive neither
      aborts allocation nor changes its outcome. */
  lemma IgnoredSuffixDoesNotMatter(prefix: string, ids: seq<Option<string>>, extra: Option<string>)
    requires SuffixValue(prefix, extra) <= 0
    ensures NextSequentialId(prefix, ids + [extra]) == NextSequentialId(prefix, ids)
  {
    var vs := SuffixValues(prefix, ids);
    var vs' := SuffixValues(prefix, ids + [extra]);
    assert vs' == vs + [SuffixValue(prefix, extra)];
    var n := NextNumber(vs);
    assert n == 1 || n - 1 in vs';
    NextNumberUnique(vs', n);
    assert AllocatedNumber(prefix, ids + [extra]) == AllocatedNumber(prefix, ids);
    IdOfNumber(prefix, ids);
    IdOfNumber(prefix, ids + [extra]);
  }

  /** Storing the identifier just allocated and allocating again gives the
      next number: allocation is monotone along a sequence of creates. */
  lemma AllocationAdvances(prefix: string, ids: seq<Option<string>>)
    ensures AllocatedNumber(prefix, ids + [Some(NextSequentialId(prefix, ids))]) == AllocatedNumber(prefix, ids) + 1
  {
    var n := AllocatedNumber(prefix, ids);
    var next := NextSequentialId(prefix, ids);
    var vs := SuffixValues(prefix, ids);
    var vs' := SuffixValues(prefix, ids + [Some(next)]);
    assert SuffixValue(prefix, Some(next)) == n;
    assert vs' == vs + [n];
    NextNumberUnique(vs', n + 1);
  }

  // ---------------------------------------------------------------------
  // The `/last-member-id` preview: no NaN filter, no positivity filter.
  // ---------------------------------------------------------------------

  /** `parseInt(memberId.replace("H40", ""), 10)` for every selected id. */
  function ParsedPreviewSuffixes(rs: seq<string>): (ns: seq<JsNumber>)
    ensures |ns| == |rs|
    ensures forall k :: 0 <= k < |rs| ==> ns[k] == ParseInt(AfterPrefix(rs[k], PreviewPrefix))
  {
    if |rs| == 0 then [] else [ParseInt(AfterPrefix(rs[0], PreviewPrefix))] + ParsedPreviewSuffixes(rs[1..])
  }

  /** `Math.max(...ns)` on JavaScript numbers: NaN as soon as one is NaN. */
  function JsMathMax(ns: seq<JsNumber>): (m: JsNumber)
    requires |ns| > 0
    ensures m == NaN <==> NaN in ns
    ensures m.Finite? ==> m in ns && forall k :: 0 <= k < |ns| ==> ns[k].value <= m.value
  {
    if |ns| == 1 then ns[0]
    else
      var m := JsMathMax(ns[1..]);
      if ns[0].NaN? || m.NaN? then NaN
      else if ns[0].value >= m.value then ns[0]
      else m
  }

  /** `x + 1` on a JavaScript number. */
  function JsIncrement(x: JsNumber): JsNumber {
    match x
    case NaN => NaN
    case Finite(v) => Finite(v + 1)
  }

  /** `String(x)` on a JavaScript number. */
  function JsNumberToString(x: JsNumber): string {
    match x
    case NaN => "NaN"
    case Finite(v) => IntToString(v)
  }

  /** The `nextMemberId` the `/last-member-id` route answers with. */
  function LastMemberIdPreview(ids: seq<Option<string>>): string {
    var selected := QueryByPrefix(PreviewPrefix, ids);
    var lastNumber := if |selected| > 0 then JsMathMax(ParsedPreviewSuffixes(selected)) else Finite(0);
    PreviewPrefix + PadStart(JsNumberToString(JsIncrement(lastNumber)), PadWidth, '0')
  }

  /** One selected memberId whose suffix does not parse turns the preview
      into "H40NaN", whatever the other ids are. */
  lemma PreviewPoisonedByMalformedSuffix(ids: seq<Option<string>>, i: nat)
    requires i < |ids| && ids[i].Some? && StartsWith(ids[i].value, PreviewPrefix)
    requires ParseInt(AfterPrefix(ids[i].value, PreviewPrefix)) == NaN
    ensures LastMemberIdPreview(ids) == "H40NaN"
  {
    var selected := QueryByPrefix(PreviewPrefix, ids);
    var ns := ParsedPreviewSuffixes(selected);
    assert NaN in ns by {
      var k :| 0 <= k < |selected| && selected[k] == ids[i].value;
      assert ns[k] == NaN;
    }
    assert JsNumberToString(JsIncrement(JsMathMax(ns))) == "NaN";
    assert PadStart("NaN", PadWidth, '0') == "NaN";
  }

  /** The store the finding is shown on: one well-formed and one malformed
      preview id. */
  lemma PreviewMalformedExample()
    ensures LastMemberIdPreview([Some("H40001"), Some("H40abc")]) == "H40NaN"
  {
    var ids := [Some("H40001"), Some("H40abc")];
    assert AfterPrefix(ids[1].value, PreviewPrefix) == "abc";
    assert ParseInt("abc") == NaN;
    PreviewPoisonedByMalformedSuffix(ids, 1);
  }

  /** Every id the preview selects has a suffix that parses to a positive
      number. */
  predicate PreviewWellFormed(ids: seq<Option<string>>) {
    forall i :: 0 <= i < |ids| && ids[i].Some? && StartsWith(ids[i].value, PreviewPrefix) ==>
      ParseInt(AfterPrefix(ids[i].value, PreviewPrefix)).Finite? &&
      ParseInt(AfterPrefix(ids[i].value, PreviewPrefix)).value > 0
  }

  /** On a well-formed store every parsed preview suffix is a positive number. */
  lemma PreviewSuffixesPositive(ids: seq<Option<string>>)
    requires PreviewWellFormed(ids)
    ensures forall k :: 0 <= k < |QueryByPrefix(PreviewPrefix, ids)| ==>
      ParsedPreviewSuffixes(QueryByPrefix(PreviewPrefix, ids))[k].Finite? &&
      ParsedPreviewSuffixes(QueryByPrefix(PreviewPrefix, ids))[k].value > 0
  {
    var selected := QueryByPrefix(PreviewPrefix, ids);
    var ns := ParsedPreviewSuffixes(selected);
    forall k | 0 <= k < |ns| ensures ns[k].Finite? && ns[k].value > 0 {
      var i :| 0 <= i < |ids| && ids[i] == Some(selected[k]);
      assert ns[k] == ParseInt(AfterPrefix(ids[i].value, PreviewPrefix));
    }
  }

  /** On a well-formed store with a selected id, the preview's maximum is the
      allocator's last number. */
  lemma PreviewMaxIsLastNumber(ids: seq<Option<string>>)
    requires PreviewWellFormed(ids)
    requires |QueryByPrefix(PreviewPrefix, ids)| > 0
    ensures JsMathMax(ParsedPreviewSuffixes(QueryByPrefix(PreviewPrefix, ids))) == Finite(AllocatedNumber(PreviewPrefix, ids) - 1)
  {
    var selected := QueryByPrefix(PreviewPrefix, ids);
    var ns := ParsedPreviewSuffixes(selected);
    PreviewSuffixesPositive(ids);
    var m := JsMathMax(ns);
    assert m.Finite?;
    var vs := SuffixValues(PreviewPrefix, ids);
    PreviewMaxAttained(ids);
    PreviewAllBelowMax(ids);
    NextNumberUnique(vs, m.value + 1);
    assert AllocatedNumber(PreviewPrefix, ids) == NextNumber(vs);
  }

  lemma PreviewMaxAttained(ids: seq<Option<string>>)
    requires PreviewWellFormed(ids)
    requires |QueryByPrefix(PreviewPrefix, ids)| > 0
    ensures JsMathMax(ParsedPreviewSuffixes(QueryByPrefix(PreviewPrefix, ids))).Finite?
    ensures JsMathMax(ParsedPreviewSuffixes(QueryByPrefix(PreviewPrefix, ids))).value >= 1
    ensures JsMathMax(ParsedPreviewSuffixes(QueryByPrefix(PreviewPrefix, ids))).value in SuffixValues(PreviewPrefix, ids)
  {
    var selected := QueryByPrefix(PreviewPrefix, ids);
    var ns := ParsedPreviewSuffixes(selected);
    PreviewSuffixesPositive(ids);
    var m := JsMathMax(ns);
    var vs := SuffixValues(PreviewPrefix, ids);
    var k :| 0 <= k < |ns| && ns[k] == m;
    var j :| 0 <= j < |ids| && ids[j] == Some(selected[k]);
    assert vs[j] == SuffixValue(PreviewPrefix, ids[j]);
    assert vs[j] == m.value;
  }

  lemma PreviewAllBelowMax(ids: seq<Option<string>>)
    requires PreviewWellFormed(ids)
    requires |QueryByPrefix(PreviewPrefix, ids)| > 0
    ensures JsMathMax(ParsedPreviewSuffixes(QueryByPrefix(PreviewPrefix, ids))).Finite?
    ensures forall i :: 0 <= i < |ids| ==>
      SuffixValues(PreviewPrefix, ids)[i] <= JsMathMax(ParsedPreviewSuffixes(QueryByPrefix(PreviewPrefix, ids))).value
  {
    PreviewSuffixesPositive(ids);
    var vs := SuffixValues(PreviewPrefix, ids);
    forall i | 0 <= i < |ids|
      ensures vs[i] <= JsMathMax(ParsedPreviewSuffixes(QueryByPrefix(PreviewPrefix, ids))).value
    {
      PreviewSuffixBelowMax(ids, i);
    }
  }

  lemma PreviewSuffixBelowMax(ids: seq<Option<string>>, i: nat)
    requires PreviewWellFormed(ids)
    requires i < |ids|
    requires |QueryByPrefix(PreviewPrefix, ids)| > 0
    ensures JsMathMax(ParsedPreviewSuffixes(QueryByPrefix(PreviewPrefix, ids))).Finite?
    ensures SuffixValue(PreviewPrefix, ids[i]) <= JsMathMax(ParsedPreviewSuffixes(QueryByPrefix(PreviewPrefix, ids))).value
  {
    var selected := QueryByPrefix(PreviewPrefix, ids);
    var ns := ParsedPreviewSuffixes(selected);
    PreviewSuffixesPositive(ids);
    var m := JsMathMax(ns);
    if ids[i].Some? && StartsWith(ids[i].value, PreviewPrefix) {
      var k :| 0 <= k < |selected| && selected[k] == ids[i].value;
      assert ns[k].value <= m.value;
      assert SuffixValue(PreviewPrefix, ids[i]) == ns[k].value;
    }
  }

  /** When every selected suffix parses to a positive number, the preview
      agrees with the allocator run on the same prefix. */
  lemma PreviewAgreesWhenWellFormed(ids: seq<Option<string>>)
    requires PreviewWellFormed(ids)
    ensures LastMemberIdPreview(ids) == NextSequentialId(PreviewPrefix, ids)
  {
    var selected := QueryByPrefix(PreviewPrefix, ids);
    assert NatToString(1) == "1";
    if |selected| == 0 {
      forall i | 0 <= i < |ids| ensures SuffixValue(PreviewPrefix, ids[i]) <= 0 {
      }
      FirstIdIs001(PreviewPrefix, ids);
    } else {
      PreviewMaxIsLastNumber(ids);
    }
  }

  /** The preview as its comment describes it ("Generate the NEXT member
      ID"): the allocator applied to the preview prefix. Its answer always
      carries a positive number and never collides with a stored id, and it
      agrees with the route on every store whose selected suffixes all parse
      to positive numbers (`PreviewAgreesWhenWellFormed`). */
  function PreviewNextMemberId(ids: seq<Option<string>>): (r: string)
    ensures StartsWith(r, PreviewPrefix)
    ensures ParseInt(AfterPrefix(r, PreviewPrefix)).Finite? && ParseInt(AfterPrefix(r, PreviewPrefix)).value >= 1
    ensures forall i :: 0 <= i < |ids| ==> ids[i] != Some(r)
  {
    NextSequentialId(PreviewPrefix, ids)
  }
}
