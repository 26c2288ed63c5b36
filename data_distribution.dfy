/**
 * The data-distribution chart (src/components/detection/DataDistributionChart.tsx):
 * groups the applicants by one protected attribute, counts each group's
 * records and approvals in a table updated in place, turns the table into
 * buckets with approval rates, and scales the bars by the largest group.
 */
module DataDistribution {
  import opened Types
  import opened Text
  import opened Numeric

  /** The value of a protected attribute: text for gender and race, a whole
      number of years for age. */
  datatype Category = Text(text: string) | Years(years: int)

  /** `applicant[attribute]`: the category a record is counted under. */
  function CategoryOf(a: Applicant, attr: ProtectedAttribute): (c: Category)
    ensures c.Years? <==> attr == Age
  {
    match attr
    case Gender => Text(a.gender)
    case Race => Text(a.race)
    case Age => Years(a.age)
  }

  /** The object key, and the label the chart prints: a JavaScript object key
      is a string, so an age becomes its decimal text. */
  function Label(c: Category): string
  {
    match c
    case Text(s) => s
    case Years(n) => IntToString(n)
  }

  /** Keying the table by the attribute value, rather than by its text, groups
      the same records: for one attribute, distinct values have distinct keys. */
  lemma {:induction false} LabelInjective(a: Applicant, b: Applicant, attr: ProtectedAttribute)
    ensures Label(CategoryOf(a, attr)) == Label(CategoryOf(b, attr)) <==> CategoryOf(a, attr) == CategoryOf(b, attr)
  {
    if attr == Age && a.age != b.age {
      IntToStringInjective(a.age, b.age);
    }
  }

  /** One `{ total, approved }` entry of the `counts` record. */
  datatype Tally = Tally(total: nat, approved: nat)

  function Plus(t: Tally, u: Tally): Tally
  {
    Tally(t.total + u.total, t.approved + u.approved)
  }

  /** What one record adds to its category's entry. */
  function Unit(a: Applicant): Tally
  {
    Tally(1, if a.approved then 1 else 0)
  }

  /** Reference count: the records of `data` in category `key`, and how many
      of them are approved. */
  function TallyOf(data: seq<Applicant>, attr: ProtectedAttribute, key: Category): (t: Tally)
    ensures t.approved <= t.total <= |data|
  {
    if data == [] then Tally(0, 0)
    else
      var rest := TallyOf(data[..|data| - 1], attr, key);
      var a := data[|data| - 1];
      if CategoryOf(a, attr) == key then Plus(rest, Unit(a)) else rest
  }

  /** Every category value that occurs in `data`. */
  function CategoriesOf(data: seq<Applicant>, attr: ProtectedAttribute): set<Category>
  {
    set i | 0 <= i < |data| :: CategoryOf(data[i], attr)
  }

  /** `counts` is the record getDistribution holds once every record has been
      visited: one entry per category that occurs, holding that category's count. */
  predicate IsCountTable(counts: map<Category, Tally>, data: seq<Applicant>, attr: ProtectedAttribute)
  {
    && counts.Keys == CategoriesOf(data, attr)
    && forall k :: k in counts ==> counts[k] == TallyOf(data, attr, k)
  }

  /** A category that no record has is counted as zero. */
  lemma {:induction false} TallyOfAbsent(data: seq<Applicant>, attr: ProtectedAttribute, key: Category)
    requires key !in CategoriesOf(data, attr)
    ensures TallyOf(data, attr, key) == Tally(0, 0)
  {
    if data != [] {
      var init := data[..|data| - 1];
      assert forall i :: 0 <= i < |init| ==> init[i] == data[i];
      assert CategoriesOf(init, attr) <= CategoriesOf(data, attr);
      TallyOfAbsent(init, attr, key);
    }
  }

  /** A category that some record has is counted at least once. */
  lemma {:induction false} TallyOfPresent(data: seq<Applicant>, attr: ProtectedAttribute, key: Category)
    requires key in CategoriesOf(data, attr)
    ensures TallyOf(data, attr, key).total >= 1
  {
    var last := data[|data| - 1];
    if CategoryOf(last, attr) != key {
      var init := data[..|data| - 1];
      var i :| 0 <= i < |data| && CategoryOf(data[i], attr) == key;
      assert i < |init| && init[i] == data[i];
      TallyOfPresent(init, attr, key);
    }
  }

  lemma {:induction false} TallyOfSnoc(d: seq<Applicant>, a: Applicant, attr: ProtectedAttribute, key: Category)
    ensures TallyOf(d + [a], attr, key)
         == if CategoryOf(a, attr) == key then Plus(TallyOf(d, attr, key), Unit(a)) else TallyOf(d, attr, key)
  {
    assert (d + [a])[..|d|] == d;
  }

  lemma TallyOfSnocAll(d: seq<Applicant>, a: Applicant, attr: ProtectedAttribute)
    ensures forall k :: TallyOf(d + [a], attr, k)
                     == if CategoryOf(a, attr) == k then Plus(TallyOf(d, attr, k), Unit(a)) else TallyOf(d, attr, k)
  {
    forall k {
      TallyOfSnoc(d, a, attr, k);
    }
  }

  lemma {:induction false} CategoriesOfSnoc(d: seq<Applicant>, a: Applicant, attr: ProtectedAttribute)
    ensures CategoriesOf(d + [a], attr) == CategoriesOf(d, attr) + {CategoryOf(a, attr)}
  {
    var e := d + [a];
    assert forall i :: 0 <= i < |d| ==> e[i] == d[i];
    assert e[|d|] == a;
    forall c | c in CategoriesOf(e, attr)
      ensures c in CategoriesOf(d, attr) + {CategoryOf(a, attr)}
    {
      var i :| 0 <= i < |e| && CategoryOf(e[i], attr) == c;
      if i < |d| { assert CategoryOf(d[i], attr) == c; }
    }
  }

  /** The entry a record's category starts from: the existing one, or
      `{ total: 0, approved: 0 }` when the category is new. */
  function EntryFor(counts: map<Category, Tally>, c: Category): Tally
  {
    if c in counts then counts[c] else Tally(0, 0)
  }

  lemma {:induction false} EntryIsTally(d: seq<Applicant>, attr: ProtectedAttribute, counts: map<Category, Tally>, c: Category)
    requires IsCountTable(counts, d, attr)
    ensures EntryFor(counts, c) == TallyOf(d, attr, c)
  {
    if c !in counts {
      TallyOfAbsent(d, attr, c);
    }
  }

  /** Visiting one more record: its category's entry, created as zero when
      missing, gains the record. */
  lemma {:induction false} CountStep(d: seq<Applicant>, a: Applicant, attr: ProtectedAttribute, counts: map<Category, Tally>)
    requires IsCountTable(counts, d, attr)
    ensures var c := CategoryOf(a, attr);
      IsCountTable(counts[c := Plus(EntryFor(counts, c), Unit(a))], d + [a], attr)
  {
    var c := CategoryOf(a, attr);
    var entry := EntryFor(counts, c);
    var next := counts[c := Plus(entry, Unit(a))];
    EntryIsTally(d, attr, counts, c);
    CategoriesOfSnoc(d, a, attr);
    KeysStep(counts, c, Plus(entry, Unit(a)), CategoriesOf(d, attr), CategoriesOf(d + [a], attr));
    ValuesStep(d, a, attr, counts, entry);
    assert next.Keys == CategoriesOf(d + [a], attr);
    assert forall k :: k in next ==> next[k] == TallyOf(d + [a], attr, k);
  }

  /** A new or updated entry adds its key to the keys. */
  lemma KeysStep(counts: map<Category, Tally>, c: Category, v: Tally, before: set<Category>, after: set<Category>)
    requires counts.Keys == before && after == before + {c}
    ensures counts[c := v].Keys == after
  {
  }

  /** Every entry of the table across one record. */
  lemma ValuesStep(d: seq<Applicant>, a: Applicant, attr: ProtectedAttribute, counts: map<Category, Tally>, entry: Tally)
    requires forall k :: k in counts ==> counts[k] == TallyOf(d, attr, k)
    requires entry == TallyOf(d, attr, CategoryOf(a, attr))
    ensures var next := counts[CategoryOf(a, attr) := Plus(entry, Unit(a))];
      forall k :: k in next ==> next[k] == TallyOf(d + [a], attr, k)
  {
    var c := CategoryOf(a, attr);
    var next := counts[c := Plus(entry, Unit(a))];
    forall k | k in next
      ensures next[k] == TallyOf(d + [a], attr, k)
    {
      var before := if k == c then entry else counts[k];
      StepAt(d, a, attr, k, before, next[k]);
    }
  }

  /** One key of the table across one record. */
  lemma StepAt(d: seq<Applicant>, a: Applicant, attr: ProtectedAttribute, k: Category, before: Tally, after: Tally)
    requires before == TallyOf(d, attr, k)
    requires after == if CategoryOf(a, attr) == k then Plus(before, Unit(a)) else before
    ensures after == TallyOf(d + [a], attr, k)
  {
    TallyOfSnoc(d, a, attr, k);
  }

  /** The `forEach` of getDistribution: visits the records in order, creating a
      category's entry on its first record and bumping `total`, and `approved`
      for an approved record. */
  method CountByCategory(data: seq<Applicant>, attr: ProtectedAttribute) returns (counts: map<Category, Tally>)
    ensures counts.Keys == CategoriesOf(data, attr)
    ensures forall k :: k in counts ==> counts[k] == TallyOf(data, attr, k)
  {
    counts := map[];
    for i := 0 to |data|
      invariant IsCountTable(counts, data[..i], attr)
    {
      PrefixSnoc(data, i);
      CountStep(data[..i], data[i], attr, counts);
      var value := CategoryOf(data[i], attr);
      counts := counts[value := Plus(EntryFor(counts, value), Unit(data[i]))];
    }
    FullPrefix(data);
  }

  lemma FullPrefix<T>(xs: seq<T>)
    ensures xs[..|xs|] == xs
  {
  }

  lemma PrefixSnoc<T>(xs: seq<T>, i: nat)
    requires i < |xs|
    ensures xs[..i + 1] == xs[..i] + [xs[i]]
  {
  }

  /** One element of the array getDistribution returns. */
  datatype Bucket = Bucket(category: Category, total: nat, approved: nat, approvalRate: real)

  /** `{ category, total, approved, approvalRate: total > 0 ? approved / total : 0 }`. */
  function ToBucket(category: Category, t: Tally): (b: Bucket)
    ensures b.category == category && b.total == t.total && b.approved == t.approved
    ensures t.total == 0 ==> b.approvalRate == 0.0
  {
    Bucket(category, t.total, t.approved,
           if t.total > 0 then t.approved as real / t.total as real else 0.0)
  }

  /** A bucket's rate is its approved fraction, within [0, 1]. */
  predicate RateIsFraction(b: Bucket)
  {
    0.0 <= b.approvalRate <= 1.0 && b.approvalRate * b.total as real == b.approved as real
  }

  /** The rate of a non-empty entry is its approved fraction. */
  lemma {:induction false} RateOfNonEmptyEntry(category: Category, t: Tally)
    requires 0 < t.total && t.approved <= t.total
    ensures RateIsFraction(ToBucket(category, t))
  {
    var q := t.approved as real / t.total as real;
    assert q * t.total as real == t.approved as real;
    assert t.approved as real / t.total as real <= t.total as real / t.total as real == 1.0;
  }

  /** `keys` lists every element of `s` exactly once, in some order. */
  predicate Enumerates(keys: seq<Category>, s: set<Category>)
  {
    && (forall i, j :: 0 <= i < j < |keys| ==> keys[i] != keys[j])
    && (forall k :: k in keys ==> k in s)
    && (forall k :: k in s ==> k in keys)
  }

  /** `Object.entries(counts).map(...)`, with the engine's key order `keys`
      (insertion order for text keys, ascending for integer-like keys). */
  function Distribution(counts: map<Category, Tally>, keys: seq<Category>): (buckets: seq<Bucket>)
    requires forall k :: k in keys ==> k in counts
    ensures |buckets| == |keys|
    ensures forall i :: 0 <= i < |keys| ==> buckets[i] == ToBucket(keys[i], counts[keys[i]])
  {
    if keys == [] then [] else [ToBucket(keys[0], counts[keys[0]])] + Distribution(counts, keys[1..])
  }

  /** The categories the buckets stand for. */
  function BucketCategories(bs: seq<Bucket>): set<Category>
  {
    set i | 0 <= i < |bs| :: bs[i].category
  }

  /** The buckets stand for exactly the categories that occur, each once: no
      record's value is dropped and none is listed twice. */
  lemma {:induction false} OneBucketPerCategory(data: seq<Applicant>, attr: ProtectedAttribute, counts: map<Category, Tally>, keys: seq<Category>, bs: seq<Bucket>)
    requires IsCountTable(counts, data, attr) && Enumerates(keys, counts.Keys)
    requires bs == Distribution(counts, keys)
    ensures BucketCategories(bs) == CategoriesOf(data, attr)
    ensures forall i, j :: 0 <= i < j < |bs| ==> bs[i].category != bs[j].category
  {
    forall c | c in CategoriesOf(data, attr)
      ensures c in BucketCategories(bs)
    {
      var i :| 0 <= i < |keys| && keys[i] == c;
      assert bs[i].category == c;
    }
  }

  /** Every entry counts at least one record, and no more approvals than records. */
  predicate NonEmptyEntries(counts: map<Category, Tally>)
  {
    forall k :: k in counts ==> 1 <= counts[k].total && counts[k].approved <= counts[k].total
  }

  /** The table getDistribution builds has only non-empty entries, and one
      at least as soon as there is a record. */
  lemma {:induction false} EntriesNonEmpty(data: seq<Applicant>, attr: ProtectedAttribute, counts: map<Category, Tally>)
    requires IsCountTable(counts, data, attr)
    ensures NonEmptyEntries(counts)
    ensures data != [] ==> counts != map[]
  {
    if data != [] {
      assert CategoryOf(data[0], attr) in CategoriesOf(data, attr);
    }
    forall k | k in counts
      ensures 1 <= counts[k].total && counts[k].approved <= counts[k].total
    {
      TallyOfPresent(data, attr, k);
    }
  }

  /** Each bucket counts exactly the records of its category, at least one,
      with approvals no more than records. */
  lemma {:induction false} BucketCountsExact(data: seq<Applicant>, attr: ProtectedAttribute, counts: map<Category, Tally>, keys: seq<Category>, bs: seq<Bucket>)
    requires IsCountTable(counts, data, attr) && Enumerates(keys, counts.Keys)
    requires bs == Distribution(counts, keys)
    ensures forall i :: 0 <= i < |bs| ==>
              && Tally(bs[i].total, bs[i].approved) == TallyOf(data, attr, bs[i].category)
              && 1 <= bs[i].total
              && bs[i].approved <= bs[i].total
  {
    EntriesNonEmpty(data, attr, counts);
    forall i | 0 <= i < |bs|
      ensures && Tally(bs[i].total, bs[i].approved) == TallyOf(data, attr, bs[i].category)
              && 1 <= bs[i].total
              && bs[i].approved <= bs[i].total
    {
      var k := keys[i];
      assert k in counts;
      assert bs[i] == ToBucket(k, counts[k]);
    }
  }

  /** Every bucket's rate is its approved fraction, within [0, 1]: for a
      table of non-empty entries, the zero guard of getDistribution never has
      to replace the quotient. */
  lemma {:induction false} BucketRatesExact(counts: map<Category, Tally>, keys: seq<Category>, bs: seq<Bucket>)
    requires NonEmptyEntries(counts)
    requires forall k :: k in keys ==> k in counts
    requires bs == Distribution(counts, keys)
    ensures forall i :: 0 <= i < |bs| ==> RateIsFraction(bs[i])
  {
    forall i | 0 <= i < |bs|
      ensures RateIsFraction(bs[i])
    {
      var k := keys[i];
      assert bs[i] == ToBucket(k, counts[k]);
      RateOfNonEmptyEntry(k, counts[k]);
    }
  }

  function SumTotals(bs: seq<Bucket>): nat
  {
    if bs == [] then 0 else bs[0].total + SumTotals(bs[1..])
  }

  function SumApproved(bs: seq<Bucket>): nat
  {
    if bs == [] then 0 else bs[0].approved + SumApproved(bs[1..])
  }

  /** The counts of the categories `keys`, added up. */
  function TallySum(data: seq<Applicant>, attr: ProtectedAttribute, keys: seq<Category>): Tally
  {
    if keys == [] then Tally(0, 0) else Plus(TallyOf(data, attr, keys[0]), TallySum(data, attr, keys[1..]))
  }

  predicate Distinct(keys: seq<Category>)
  {
    forall i, j :: 0 <= i < j < |keys| ==> keys[i] != keys[j]
  }

  /** Appending a record adds it to the sum once if its category is listed:
      `after` holds the counts of `before` plus the record `a`. */
  lemma {:induction false} TallySumAppend(before: seq<Applicant>, after: seq<Applicant>, a: Applicant,
                                          attr: ProtectedAttribute, keys: seq<Category>)
    requires Distinct(keys)
    requires forall k :: TallyOf(after, attr, k)
                      == if CategoryOf(a, attr) == k then Plus(TallyOf(before, attr, k), Unit(a)) else TallyOf(before, attr, k)
    ensures TallySum(after, attr, keys)
         == Plus(TallySum(before, attr, keys), if CategoryOf(a, attr) in keys then Unit(a) else Tally(0, 0))
  {
    if keys != [] {
      var c := CategoryOf(a, attr);
      var head := if c == keys[0] then Unit(a) else Tally(0, 0);
      var tail := if c in keys[1..] then Unit(a) else Tally(0, 0);
      DistinctTail(keys);
      TallySumAppend(before, after, a, attr, keys[1..]);
      MemberOfCons(c, keys);
      assert TallyOf(after, attr, keys[0]) == Plus(TallyOf(before, attr, keys[0]), head);
      PlusInterchange(TallyOf(before, attr, keys[0]), TallySum(before, attr, keys[1..]), head, tail);
    }
  }

  lemma PlusInterchange(x: Tally, y: Tally, h: Tally, t: Tally)
    ensures Plus(Plus(x, h), Plus(y, t)) == Plus(Plus(x, y), Plus(h, t))
  {
  }

  lemma DistinctTail(keys: seq<Category>)
    requires keys != [] && Distinct(keys)
    ensures Distinct(keys[1..])
  {
    forall i, j | 0 <= i < j < |keys[1..]| ensures keys[1..][i] != keys[1..][j] {
      assert keys[1..][i] == keys[i + 1] && keys[1..][j] == keys[j + 1];
    }
  }

  /** A key of a duplicate-free list is either its head or in its tail, never both. */
  lemma MemberOfCons(c: Category, keys: seq<Category>)
    requires keys != [] && Distinct(keys)
    ensures c in keys <==> c == keys[0] || c in keys[1..]
    ensures c == keys[0] ==> c !in keys[1..]
  {
    assert keys == [keys[0]] + keys[1..];
    if c in keys[1..] {
      var j :| 0 <= j < |keys[1..]| && keys[1..][j] == c;
      assert keys[j + 1] == c;
    }
  }

  /** Summed over a duplicate-free list covering every category, the counts
      give back every record and every approval. */
  lemma {:induction false} TallySumCovers(data: seq<Applicant>, attr: ProtectedAttribute, keys: seq<Category>)
    requires Distinct(keys)
    requires forall r :: 0 <= r < |data| ==> CategoryOf(data[r], attr) in keys
    ensures TallySum(data, attr, keys) == Tally(|data|, ApprovedCount(data))
  {
    if data == [] {
      TallySumZero(attr, keys);
    } else {
      var init := data[..|data| - 1];
      var a := data[|data| - 1];
      assert data == init + [a];
      assert forall r :: 0 <= r < |init| ==> init[r] == data[r];
      TallySumCovers(init, attr, keys);
      TallyOfSnocAll(init, a, attr);
      assert CategoryOf(a, attr) in keys;
      TallySumAppend(init, data, a, attr, keys);
      assert ApprovedCount(data) == ApprovedCount(init) + Unit(a).approved;
    }
  }

  lemma {:induction false} TallySumZero(attr: ProtectedAttribute, keys: seq<Category>)
    ensures TallySum([], attr, keys) == Tally(0, 0)
  {
    if keys != [] {
      TallySumZero(attr, keys[1..]);
    }
  }

  lemma {:induction false} BucketSumsAreTallySum(data: seq<Applicant>, attr: ProtectedAttribute, counts: map<Category, Tally>, keys: seq<Category>)
    requires IsCountTable(counts, data, attr)
    requires forall k :: k in keys ==> k in counts
    ensures var bs := Distribution(counts, keys);
      Tally(SumTotals(bs), SumApproved(bs)) == TallySum(data, attr, keys)
  {
    if keys != [] {
      BucketSumsAreTallySum(data, attr, counts, keys[1..]);
    }
  }

  /** No record is lost or counted twice: the bucket totals add up to
      `data.length` and the bucket approvals to `overallApproved`. */
  lemma {:induction false} BucketsConserveRecords(data: seq<Applicant>, attr: ProtectedAttribute, counts: map<Category, Tally>, keys: seq<Category>, bs: seq<Bucket>)
    requires IsCountTable(counts, data, attr) && Enumerates(keys, counts.Keys)
    requires bs == Distribution(counts, keys)
    ensures SumTotals(bs) == |data|
    ensures SumApproved(bs) == ApprovedCount(data)
  {
    forall r | 0 <= r < |data| ensures CategoryOf(data[r], attr) in keys {
      assert CategoryOf(data[r], attr) in CategoriesOf(data, attr);
    }
    TallySumCovers(data, attr, keys);
    BucketSumsAreTallySum(data, attr, counts, keys);
  }

  /** getDistribution as a whole: count, then list the entries in the
      engine's key order `keys`. Every category gets one bucket holding its
      exact count, and no record is lost or counted twice. */
  method GetDistribution(data: seq<Applicant>, attr: ProtectedAttribute, keys: seq<Category>) returns (bs: seq<Bucket>)
    requires Enumerates(keys, CategoriesOf(data, attr))
    ensures BucketCategories(bs) == CategoriesOf(data, attr)
    ensures forall i, j :: 0 <= i < j < |bs| ==> bs[i].category != bs[j].category
    ensures forall i :: 0 <= i < |bs| ==>
              Tally(bs[i].total, bs[i].approved) == TallyOf(data, attr, bs[i].category) && 1 <= bs[i].total
    ensures forall i :: 0 <= i < |bs| ==> RateIsFraction(bs[i])
    ensures SumTotals(bs) == |data| && SumApproved(bs) == ApprovedCount(data)
  {
    var counts := CountByCategory(data, attr);
    bs := Distribution(counts, keys);
    OneBucketPerCategory(data, attr, counts, keys, bs);
    BucketCountsExact(data, attr, counts, keys, bs);
    EntriesNonEmpty(data, attr, counts);
    BucketRatesExact(counts, keys, bs);
    BucketsConserveRecords(data, attr, counts, keys, bs);
  }

  function Totals(bs: seq<Bucket>): (xs: seq<real>)
    ensures |xs| == |bs| && forall i :: 0 <= i < |bs| ==> xs[i] == bs[i].total as real
  {
    seq(|bs|, i requires 0 <= i < |bs| => bs[i].total as real)
  }

  /** `Math.max(...distribution.map(item => item.total))`; None is the
      -Infinity of an empty distribution, where no bar is drawn. */
  function MaxTotal(bs: seq<Bucket>): (m: Option<real>)
    ensures m.None? <==> bs == []
    ensures m.Some? ==> forall i :: 0 <= i < |bs| ==> bs[i].total as real <= m.value
    ensures m.Some? ==> exists i :: 0 <= i < |bs| && bs[i].total as real == m.value
  {
    var xs := Totals(bs);
    var m := Max(xs);
    if m.Some? then
      var i :| 0 <= i < |xs| && xs[i] == m.value;
      m
    else m
  }

  /** `(count / maxTotal) * 100`, the width of a bar in percent. */
  function BarWidth(count: nat, maxTotal: real): (w: real)
    requires maxTotal > 0.0
    ensures w >= 0.0
    ensures count as real == maxTotal ==> w == 100.0
  {
    assert maxTotal / maxTotal == 1.0;
    count as real / maxTotal * 100.0
  }

  /** With at least one bucket, the largest total is positive and no bar,
      total or approved, is wider than the track; the approved bar is never
      wider than the total bar. */
  lemma {:induction false} BarsWithinTrack(counts: map<Category, Tally>, keys: seq<Category>, bs: seq<Bucket>)
    requires NonEmptyEntries(counts)
    requires forall k :: k in keys ==> k in counts
    requires bs == Distribution(counts, keys) && bs != []
    ensures MaxTotal(bs).Some? && MaxTotal(bs).value >= 1.0
    ensures forall i :: 0 <= i < |bs| ==> bs[i].total as real <= MaxTotal(bs).value
    ensures forall i :: 0 <= i < |bs| ==>
              0.0 <= BarWidth(bs[i].approved, MaxTotal(bs).value)
                  <= BarWidth(bs[i].total, MaxTotal(bs).value) <= 100.0
  {
    var m := MaxTotal(bs).value;
    assert bs[0] == ToBucket(keys[0], counts[keys[0]]);
    assert Totals(bs)[0] <= m;
    forall i | 0 <= i < |bs|
      ensures 0.0 <= BarWidth(bs[i].approved, m) <= BarWidth(bs[i].total, m) <= 100.0
    {
      assert bs[i] == ToBucket(keys[i], counts[keys[i]]);
      assert Totals(bs)[i] <= m;
      WidthMonotone(bs[i].approved, bs[i].total, m);
    }
  }

  lemma {:induction false} WidthMonotone(a: nat, b: nat, m: real)
    requires m > 0.0 && a <= b && b as real <= m
    ensures 0.0 <= BarWidth(a, m) <= BarWidth(b, m) <= 100.0
  {
    assert a as real / m <= b as real / m <= 1.0;
  }

  /** `data.length > 0 ? overallApproved / data.length : 0`. */
  function OverallRate(data: seq<Applicant>): (r: real)
    ensures 0.0 <= r <= 1.0
    ensures data == [] ==> r == 0.0
    ensures data != [] ==> r * |data| as real == ApprovedCount(data) as real
  {
    if |data| > 0 then ApprovedCount(data) as real / |data| as real else 0.0
  }
}
