/** Publication planning: the ordered (topic, value) pairs that one decoded
    record is forwarded as. Scalar keys go to `prefix/key`, the topic a sensor
    subscribes to; list elements go to `prefix/cellVoltage_i` and
    `prefix/cellTemperature_i`, numbered from 1. */
module Publish {
  import opened Bytes
  import opened Frame

  /** A decoded value in the unit the record keeps it in. `Hex` is a raw byte
      that the source sends as its hexadecimal text. */
  datatype Value = Milli(milli: int) | Centi(centi: int) | Whole(whole: int) | Hex(raw: byte)

  /** A dictionary value: one reading or a list of readings. */
  datatype Field = Scalar(value: Value) | Series(values: seq<Value>)

  datatype Entry = Entry(key: string, field: Field)

  /** One call of the sink: a topic and the value serialised to it. */
  datatype Publication = Publication(topic: string, payload: Field)

  const VoltagesKey: string := "cellVoltages"
  const TemperaturesKey: string := "cellTemperatures"

  function Milliunits(s: seq<nat>): (r: seq<Value>)
    ensures |r| == |s| && forall i :: 0 <= i < |s| ==> r[i] == Milli(s[i])
  {
    seq(|s|, i requires 0 <= i < |s| => Milli(s[i]))
  }

  function Degrees(s: seq<int>): (r: seq<Value>)
    ensures |r| == |s| && forall i :: 0 <= i < |s| ==> r[i] == Whole(s[i])
  {
    seq(|s|, i requires 0 <= i < |s| => Whole(s[i]))
  }

  /** The dictionary `parse_response` builds, its keys in insertion order:
      two readings, the cell voltages, eleven readings, the cell
      temperatures, fifteen readings. */
  function AsDict(t: Telemetry): seq<Entry>
  {
    LeadingScalars(t)
    + [Entry(VoltagesKey, Series(Milliunits(t.cellVoltages)))]
    + MiddleScalars(t)
    + [Entry(TemperaturesKey, Series(Degrees(t.cellTemperatures)))]
    + TrailingScalars(t)
  }

  predicate AllScalar(d: seq<Entry>) {
    forall k :: 0 <= k < |d| ==> d[k].field.Scalar?
  }

  function LeadingScalars(t: Telemetry): (d: seq<Entry>)
    ensures |d| == 2 && AllScalar(d)
  {
    [ Entry("onlineStatus", Scalar(Whole(t.onlineStatus))),
      Entry("batteriesSeriesNumber", Scalar(Whole(t.batteriesSeriesNumber))) ]
  }

  function MiddleScalars(t: Telemetry): (d: seq<Entry>)
    ensures |d| == 11 && AllScalar(d)
  {
    [ Entry("maxCellNumber", Scalar(Whole(t.maxCellNumber))),
      Entry("maxCellVoltage", Scalar(Milli(t.maxCellVoltage))),
      Entry("minCellNumber", Scalar(Whole(t.minCellNumber))),
      Entry("minCellVoltage", Scalar(Milli(t.minCellVoltage))),
      Entry("totalCurrent", Scalar(Centi(t.totalCurrent))),
      Entry("soc", Scalar(Centi(t.soc))),
      Entry("soh", Scalar(Centi(t.soh))),
      Entry("actualCapacity", Scalar(Centi(t.actualCapacity))),
      Entry("surplusCapacity", Scalar(Centi(t.surplusCapacity))),
      Entry("nominalCapacity", Scalar(Centi(t.nominalCapacity))),
      Entry("batteriesTemperatureNumber", Scalar(Whole(t.batteriesTemperatureNumber))) ]
  }

  function TrailingScalars(t: Telemetry): (d: seq<Entry>)
    ensures |d| == 15 && AllScalar(d)
  {
    [ Entry("environmentalTemperature", Scalar(Whole(t.environmentalTemperature))),
      Entry("pcbTemperature", Scalar(Whole(t.pcbTemperature))),
      Entry("maxTemperatureCellNumber", Scalar(Whole(t.maxTemperatureCellNumber))),
      Entry("maxTemperatureCellValue", Scalar(Whole(t.maxTemperatureCellValue))),
      Entry("minTemperatureCellNumber", Scalar(Whole(t.minTemperatureCellNumber))),
      Entry("minTemperatureCellValue", Scalar(Whole(t.minTemperatureCellValue))),
      Entry("bmsFault1", Scalar(Hex(t.bmsFault1))),
      Entry("bmsFault2", Scalar(Hex(t.bmsFault2))),
      Entry("bmsAlert1", Scalar(Hex(t.bmsAlert1))),
      Entry("bmsAlert2", Scalar(Hex(t.bmsAlert2))),
      Entry("bmsAlert3", Scalar(Hex(t.bmsAlert3))),
      Entry("bmsAlert4", Scalar(Hex(t.bmsAlert4))),
      Entry("cycleIndex", Scalar(Whole(t.cycleIndex))),
      Entry("totalVoltage", Scalar(Centi(t.totalVoltage))),
      Entry("bmsStatus", Scalar(Hex(t.bmsStatus))) ]
  }

  /** The decimal text of `n`, as an f-string renders an integer. */
  function Decimal(n: nat): (s: string)
    ensures |s| >= 1
    ensures forall i :: 0 <= i < |s| ==> '0' <= s[i] <= '9'
  {
    var digit := ['0' + (n % 10) as char];
    if n < 10 then digit else Decimal(n / 10) + digit
  }

  /** The number a string of decimal digits denotes. */
  function DigitsValue(s: string): nat
    requires forall i :: 0 <= i < |s| ==> '0' <= s[i] <= '9'
  {
    if s == [] then 0
    else 10 * DigitsValue(s[..|s| - 1]) + (s[|s| - 1] as int - '0' as int)
  }

  /** `Decimal(n)` is the numeral of `n`: it denotes `n` and has no leading
      zero. */
  lemma {:induction false} DecimalValue(n: nat)
    ensures DigitsValue(Decimal(n)) == n
    ensures n > 0 ==> Decimal(n)[0] != '0'
    decreases n
  {
    if n >= 10 {
      DecimalValue(n / 10);
      var d := Decimal(n / 10);
      var s := d + ['0' + (n % 10) as char];
      assert Decimal(n) == s;
      assert s[..|s| - 1] == d;
    }
  }

  /** The topic a sensor listens on for key `key`. */
  function ScalarTopic(prefix: string, key: string): string {
    prefix + "/" + key
  }

  /** The topic of the `i`-th (from 0) element of a list published under `stem`. */
  function ElementTopic(prefix: string, stem: string, i: nat): string {
    prefix + "/" + stem + "_" + Decimal(i + 1)
  }

  /** The `enumerate` loop: one publication per element, in order. */
  function Enumerated(prefix: string, stem: string, vs: seq<Value>): (ps: seq<Publication>)
    ensures |ps| == |vs|
  {
    if vs == [] then []
    else Enumerated(prefix, stem, vs[..|vs| - 1])
         + [Publication(ElementTopic(prefix, stem, |vs| - 1), Scalar(vs[|vs| - 1]))]
  }

  /** The publications of one dictionary entry, dispatched on its key. */
  function EntryPublications(prefix: string, e: Entry): seq<Publication> {
    if e.key == VoltagesKey && e.field.Series? then Enumerated(prefix, "cellVoltage", e.field.values)
    else if e.key == TemperaturesKey && e.field.Series? then Enumerated(prefix, "cellTemperature", e.field.values)
    else [Publication(ScalarTopic(prefix, e.key), e.field)]
  }

  /** `f` applied to every element of `xs`, the results concatenated in order. */
  function FlatMap<T, U>(f: T -> seq<U>, xs: seq<T>): seq<U> {
    if xs == [] then [] else FlatMap(f, xs[..|xs| - 1]) + f(xs[|xs| - 1])
  }

  lemma FlatMapSnoc<T, U>(f: T -> seq<U>, xs: seq<T>, x: T)
    ensures FlatMap(f, xs + [x]) == FlatMap(f, xs) + f(x)
  {
    assert (xs + [x])[..|xs|] == xs;
  }

  lemma {:induction false} FlatMapAppend<T, U>(f: T -> seq<U>, a: seq<T>, b: seq<T>)
    ensures FlatMap(f, a + b) == FlatMap(f, a) + FlatMap(f, b)
    decreases |b|
  {
    if b == [] {
      assert a + b == a;
    } else {
      var b', last := b[..|b| - 1], b[|b| - 1];
      assert a + b == (a + b') + [last];
      assert b == b' + [last];
      FlatMapSnoc(f, a + b', last);
      FlatMapSnoc(f, b', last);
      FlatMapAppend(f, a, b');
    }
  }

  /** The publications of a dictionary, entry after entry. */
  function Publications(prefix: string, d: seq<Entry>): seq<Publication> {
    FlatMap(e => EntryPublications(prefix, e), d)
  }

  lemma PublicationsPrefix(prefix: string, d: seq<Entry>, n: nat)
    requires n < |d|
    ensures Publications(prefix, d[..n + 1]) == Publications(prefix, d[..n]) + EntryPublications(prefix, d[n])
  {
    assert d[..n + 1] == d[..n] + [d[n]];
    FlatMapSnoc(e => EntryPublications(prefix, e), d[..n], d[n]);
  }

  lemma EnumeratedPrefix(prefix: string, stem: string, vs: seq<Value>, i: nat)
    requires i < |vs|
    ensures Enumerated(prefix, stem, vs[..i + 1])
         == Enumerated(prefix, stem, vs[..i]) + [Publication(ElementTopic(prefix, stem, i), Scalar(vs[i]))]
  {
    assert vs[..i + 1][..i] == vs[..i];
  }

  /** The publish loop of `read_and_publish_data` over the items of a parsed
      dictionary, with each sink call replaced by appending to the list. */
  method PlanPublications(prefix: string, entries: seq<Entry>) returns (pubs: seq<Publication>)
    ensures pubs == Publications(prefix, entries)
  {
    pubs := [];
    for n := 0 to |entries|
      invariant pubs == Publications(prefix, entries[..n])
    {
      var key, value := entries[n].key, entries[n].field;
      ghost var before := pubs;
      if key == VoltagesKey && value.Series? {
        for i := 0 to |value.values|
          invariant pubs == before + Enumerated(prefix, "cellVoltage", value.values[..i])
        {
          EnumeratedPrefix(prefix, "cellVoltage", value.values, i);
          pubs := pubs + [Publication(ElementTopic(prefix, "cellVoltage", i), Scalar(value.values[i]))];
        }
        assert value.values[..|value.values|] == value.values;
      } else if key == TemperaturesKey && value.Series? {
        for i := 0 to |value.values|
          invariant pubs == before + Enumerated(prefix, "cellTemperature", value.values[..i])
        {
          EnumeratedPrefix(prefix, "cellTemperature", value.values, i);
          pubs := pubs + [Publication(ElementTopic(prefix, "cellTemperature", i), Scalar(value.values[i]))];
        }
        assert value.values[..|value.values|] == value.values;
      } else {
        pubs := pubs + [Publication(ScalarTopic(prefix, key), value)];
      }
      PublicationsPrefix(prefix, entries, n);
    }
    assert entries[..|entries|] == entries;
  }

  // ---------------------------------------------------------------------------
  // Properties of the plan

  /** Planning a dictionary made of two parts plans the parts one after the other. */
  lemma PublicationsAppend(prefix: string, a: seq<Entry>, b: seq<Entry>)
    ensures Publications(prefix, a + b) == Publications(prefix, a) + Publications(prefix, b)
  {
    FlatMapAppend(e => EntryPublications(prefix, e), a, b);
  }

  lemma PublicationsSingle(prefix: string, e: Entry)
    ensures Publications(prefix, [e]) == EntryPublications(prefix, e)
  {
    FlatMapSnoc(e' => EntryPublications(prefix, e'), [], e);
    assert [] + [e] == [e];
  }

  /** `ps` publishes each entry of `d` to `prefix/key`, one apiece, in order. */
  predicate PublishedAsScalars(prefix: string, d: seq<Entry>, ps: seq<Publication>) {
    |ps| == |d| &&
    forall k :: 0 <= k < |d| ==> ps[k] == Publication(ScalarTopic(prefix, d[k].key), d[k].field)
  }

  /** Entries holding one reading each are published one apiece, in order, to
      `prefix/key`. */
  lemma {:induction false} ScalarsPublished(prefix: string, d: seq<Entry>)
    requires AllScalar(d)
    ensures PublishedAsScalars(prefix, d, Publications(prefix, d))
  {
    if d != [] {
      var d' := d[..|d| - 1];
      assert d == d' + [d[|d| - 1]];
      ScalarsPublished(prefix, d');
      PublicationsPrefix(prefix, d, |d| - 1);
    }
  }

  /** `enumerate` numbers the elements from 1 and keeps their order. */
  lemma {:induction false} EnumeratedAt(prefix: string, stem: string, vs: seq<Value>, i: nat)
    requires i < |vs|
    ensures Enumerated(prefix, stem, vs)[i] == Publication(ElementTopic(prefix, stem, i), Scalar(vs[i]))
  {
    if i < |vs| - 1 {
      EnumeratedAt(prefix, stem, vs[..|vs| - 1], i);
    }
  }

  /** Where the `k`-th of the scalar entries lands when `a` scalars precede
      the first list (of `n` elements) and `b` the second (of `m`). */
  function ScalarPosition(k: nat, a: nat, b: nat, n: nat, m: nat): nat {
    if k < a then k else if k < b then k + n else k + n + m
  }

  lemma ListsBetweenScalarsSplit(prefix: string, head: seq<Entry>, vs: seq<Value>,
                                 mid: seq<Entry>, ts: seq<Value>, tail: seq<Entry>)
    ensures Publications(prefix, head + [Entry(VoltagesKey, Series(vs))] + mid
                                 + [Entry(TemperaturesKey, Series(ts))] + tail)
         == Publications(prefix, head) + Enumerated(prefix, "cellVoltage", vs) + Publications(prefix, mid)
            + Enumerated(prefix, "cellTemperature", ts) + Publications(prefix, tail)
  {
    var ve := Entry(VoltagesKey, Series(vs));
    var te := Entry(TemperaturesKey, Series(ts));
    PublicationsSingle(prefix, ve);
    PublicationsSingle(prefix, te);
    PublicationsAppend(prefix, head, [ve]);
    PublicationsAppend(prefix, head + [ve], mid);
    PublicationsAppend(prefix, head + [ve] + mid, [te]);
    PublicationsAppend(prefix, head + [ve] + mid + [te], tail);
  }

  /** Where the elements of five concatenated parts land. */
  lemma FiveParts<T>(p1: seq<T>, p2: seq<T>, p3: seq<T>, p4: seq<T>, p5: seq<T>)
    ensures var ps, a, b, c, d := p1 + p2 + p3 + p4 + p5, |p1|, |p1| + |p2|, |p1| + |p2| + |p3|, |p1| + |p2| + |p3| + |p4|;
      |ps| == d + |p5| &&
      (forall k :: 0 <= k < |p1| ==> ps[k] == p1[k]) &&
      (forall k :: 0 <= k < |p2| ==> ps[a + k] == p2[k]) &&
      (forall k :: 0 <= k < |p3| ==> ps[b + k] == p3[k]) &&
      (forall k :: 0 <= k < |p4| ==> ps[c + k] == p4[k]) &&
      (forall k :: 0 <= k < |p5| ==> ps[d + k] == p5[k])
  {
  }

  /** The scalar publications of three parts keep their places around two
      lists of `n` and `m` elements. */
  lemma ScalarsAroundLists(prefix: string, head: seq<Entry>, mid: seq<Entry>, tail: seq<Entry>,
                           ph: seq<Publication>, volts: seq<Publication>, pm: seq<Publication>,
                           temps: seq<Publication>, pt: seq<Publication>)
    requires PublishedAsScalars(prefix, head, ph)
    requires PublishedAsScalars(prefix, mid, pm)
    requires PublishedAsScalars(prefix, tail, pt)
    ensures var ps, s, a, b := ph + volts + pm + temps + pt, head + mid + tail, |head|, |head| + |mid|;
      forall k :: 0 <= k < |s| ==>
        ps[ScalarPosition(k, a, b, |volts|, |temps|)] == Publication(ScalarTopic(prefix, s[k].key), s[k].field)
  {
    var ps, s, a, b := ph + volts + pm + temps + pt, head + mid + tail, |head|, |head| + |mid|;
    FiveParts(ph, volts, pm, temps, pt);
    forall k | 0 <= k < |s|
      ensures ps[ScalarPosition(k, a, b, |volts|, |temps|)] == Publication(ScalarTopic(prefix, s[k].key), s[k].field)
    {
      if k < a {
        assert s[k] == head[k];
      } else if k < b {
        assert s[k] == mid[k - a];
      } else {
        assert s[k] == tail[k - b];
      }
    }
  }

  /** The elements of a list entry are published one per topic, numbered from 1. */
  lemma ElementsPublished(prefix: string, stem: string, vs: seq<Value>)
    ensures forall i :: 0 <= i < |vs| ==>
      Enumerated(prefix, stem, vs)[i] == Publication(ElementTopic(prefix, stem, i), Scalar(vs[i]))
  {
    forall i | 0 <= i < |vs|
      ensures Enumerated(prefix, stem, vs)[i] == Publication(ElementTopic(prefix, stem, i), Scalar(vs[i]))
    {
      EnumeratedAt(prefix, stem, vs, i);
    }
  }

  /** The publications of three runs of scalars around the two lists, laid
      end to end. */
  lemma ScalarsAndLists(prefix: string, head: seq<Entry>, vs: seq<Value>, mid: seq<Entry>,
                        ts: seq<Value>, tail: seq<Entry>,
                        ph: seq<Publication>, pm: seq<Publication>, pt: seq<Publication>)
    requires PublishedAsScalars(prefix, head, ph)
    requires PublishedAsScalars(prefix, mid, pm)
    requires PublishedAsScalars(prefix, tail, pt)
    ensures var ps := ph + Enumerated(prefix, "cellVoltage", vs) + pm
                         + Enumerated(prefix, "cellTemperature", ts) + pt;
      var s, a, b := head + mid + tail, |head|, |head| + |mid|;
      |ps| == |s| + |vs| + |ts| &&
      (forall i :: 0 <= i < |vs| ==>
        ps[a + i] == Publication(ElementTopic(prefix, "cellVoltage", i), Scalar(vs[i]))) &&
      (forall j :: 0 <= j < |ts| ==>
        ps[b + |vs| + j] == Publication(ElementTopic(prefix, "cellTemperature", j), Scalar(ts[j]))) &&
      (forall k :: 0 <= k < |s| ==>
        ps[ScalarPosition(k, a, b, |vs|, |ts|)] == Publication(ScalarTopic(prefix, s[k].key), s[k].field))
  {
    var volts := Enumerated(prefix, "cellVoltage", vs);
    var temps := Enumerated(prefix, "cellTemperature", ts);
    FiveParts(ph, volts, pm, temps, pt);
    ElementsPublished(prefix, "cellVoltage", vs);
    ElementsPublished(prefix, "cellTemperature", ts);
    ScalarsAroundLists(prefix, head, mid, tail, ph, volts, pm, temps, pt);
    var ps := ph + volts + pm + temps + pt;
    forall i | 0 <= i < |vs|
      ensures ps[|head| + i] == Publication(ElementTopic(prefix, "cellVoltage", i), Scalar(vs[i]))
    {
      assert ps[|ph| + i] == volts[i];
    }
    forall j | 0 <= j < |ts|
      ensures ps[|head| + |mid| + |vs| + j] == Publication(ElementTopic(prefix, "cellTemperature", j), Scalar(ts[j]))
    {
      assert ps[|ph| + |volts| + |pm| + j] == temps[j];
    }
  }

  /** A dictionary of readings with the voltage list and the temperature list
      between them is published as: one topic per reading, in order, and the
      lists' elements in place of the lists. */
  lemma ListsBetweenScalars(prefix: string, head: seq<Entry>, vs: seq<Value>,
                            mid: seq<Entry>, ts: seq<Value>, tail: seq<Entry>)
    requires AllScalar(head) && AllScalar(mid) && AllScalar(tail)
    ensures var ps := Publications(prefix, head + [Entry(VoltagesKey, Series(vs))] + mid
                                           + [Entry(TemperaturesKey, Series(ts))] + tail);
      var s, a, b := head + mid + tail, |head|, |head| + |mid|;
      |ps| == |s| + |vs| + |ts| &&
      (forall i :: 0 <= i < |vs| ==>
        ps[a + i] == Publication(ElementTopic(prefix, "cellVoltage", i), Scalar(vs[i]))) &&
      (forall j :: 0 <= j < |ts| ==>
        ps[b + |vs| + j] == Publication(ElementTopic(prefix, "cellTemperature", j), Scalar(ts[j]))) &&
      (forall k :: 0 <= k < |s| ==>
        ps[ScalarPosition(k, a, b, |vs|, |ts|)] == Publication(ScalarTopic(prefix, s[k].key), s[k].field))
  {
    ListsBetweenScalarsSplit(prefix, head, vs, mid, ts, tail);
    ScalarsPublished(prefix, head);
    ScalarsPublished(prefix, mid);
    ScalarsPublished(prefix, tail);
    ScalarsAndLists(prefix, head, vs, mid, ts, tail,
                    Publications(prefix, head), Publications(prefix, mid), Publications(prefix, tail));
  }

  /** The scalar entries of a record's dictionary, in order. */
  function ScalarEntries(t: Telemetry): seq<Entry> {
    LeadingScalars(t) + MiddleScalars(t) + TrailingScalars(t)
  }

  /** A record is published as 28 scalar topics plus one topic per cell
      voltage and per cell temperature, in the dictionary's order: the two
      leading scalars, the N voltages, eleven scalars, the M temperatures,
      fifteen scalars. */
  lemma RecordPublications(prefix: string, t: Telemetry)
    ensures var ps := Publications(prefix, AsDict(t));
      var n, m, s := |t.cellVoltages|, |t.cellTemperatures|, ScalarEntries(t);
      |s| == 28 && |ps| == 28 + n + m &&
      (forall i :: 0 <= i < n ==>
        ps[2 + i] == Publication(ElementTopic(prefix, "cellVoltage", i), Scalar(Milli(t.cellVoltages[i])))) &&
      (forall j :: 0 <= j < m ==>
        ps[13 + n + j] == Publication(ElementTopic(prefix, "cellTemperature", j), Scalar(Whole(t.cellTemperatures[j])))) &&
      (forall k :: 0 <= k < 28 ==>
        ps[ScalarPosition(k, 2, 13, n, m)] == Publication(ScalarTopic(prefix, s[k].key), s[k].field))
  {
    ListsBetweenScalars(prefix, LeadingScalars(t), Milliunits(t.cellVoltages),
                        MiddleScalars(t), Degrees(t.cellTemperatures), TrailingScalars(t));
  }

  /** What one candidate handed to `parse_response` is published as: the
      record's topics when it is accepted, nothing when it is refused. */
  function CandidatePublications(prefix: string, candidate: seq<byte>): seq<Publication> {
    match Parse(candidate)
    case Accepted(t) => Publications(prefix, AsDict(t))
    case _ => []
  }

  /** An accepted frame yields exactly 28 + N + M publications, N and M being
      the counts it declares; a refused one (or one the parser raises on)
      yields none. */
  lemma CandidatePublicationCount(prefix: string, candidate: seq<byte>)
    ensures |CandidatePublications(prefix, candidate)| ==
      if Parse(candidate).Accepted?
      then 28 + CellCount(candidate) + TempCount(candidate)
      else 0
  {
    if Parse(candidate).Accepted? {
      RecordPublications(prefix, Parse(candidate).record);
    }
  }
}
