/** The location summary the introduction, streaming-introduction and chat
    routes put into their prompts, and the result card copies to the
    clipboard: one labelled line per truthy field in a fixed order, the
    coordinates only when both are truthy, joined by newlines. The routes
    build it with `filter(Boolean).join('\n')` over `field && line`
    candidates; the card pushes the same lines onto an array. */
module LocationInfo {
  import opened Json
  import opened Strings

  /** The fields the summary reads; `None` is `undefined`. */
  datatype LocationRecord = LocationRecord(
    continent: Option<JsonValue>, country: Option<JsonValue>, province: Option<JsonValue>,
    city: Option<JsonValue>, location: Option<JsonValue>,
    latitude: Option<JsonValue>, longitude: Option<JsonValue>,
    introduction: Option<JsonValue>)

  /** `locationData.continent`, `locationData.country`, … read off a
      request's (truthy) `locationData`. */
  function FieldsOf(v: JsonValue): (r: LocationRecord)
    ensures r.country == Prop(v, "country") && r.latitude == Prop(v, "latitude")
  {
    LocationRecord(Prop(v, "continent"), Prop(v, "country"), Prop(v, "province"),
                   Prop(v, "city"), Prop(v, "location"),
                   Prop(v, "latitude"), Prop(v, "longitude"), Prop(v, "introduction"))
  }

  const ContinentLabel := "大洲: "
  const CountryLabel := "国家: "
  const ProvinceLabel := "省份: "
  const CityLabel := "城市: "
  /** The label of the place line in the prompts. */
  const RoutePlaceLabel := "地点: "
  /** The label of the place line on the result card. */
  const CardPlaceLabel := "地名: "
  const CoordinatesLabel := "坐标: "
  const IntroductionLabel := "景点介绍: "

  /** `field && \`label${field}\``: the line when the field is truthy, and a
      falsy value (`None`) that `filter(Boolean)` drops otherwise. */
  function Line(caption: string, v: Option<JsonValue>): (r: Option<string>)
    ensures r.Some? <==> Truthy(v)
    ensures r.Some? ==> StartsWith(r.value, caption)
  {
    if Truthy(v) then
      StartsWithConcat(caption, Render(v));
      Some(caption + Render(v))
    else None
  }

  /** `lat && lng && \`坐标: ${lat}, ${lng}\``. */
  function CoordinatesLine(latitude: Option<JsonValue>, longitude: Option<JsonValue>): (r: Option<string>)
    ensures r.Some? <==> Truthy(latitude) && Truthy(longitude)
    ensures r.Some? ==> StartsWith(r.value, CoordinatesLabel)
  {
    if Truthy(latitude) && Truthy(longitude) then
      StartsWithConcat(CoordinatesLabel, Render(latitude) + ", " + Render(longitude));
      Some(CoordinatesLabel + (Render(latitude) + ", " + Render(longitude)))
    else None
  }

  /** The candidate lines in their fixed order; the chat route appends the
      introduction. */
  function Candidates(r: LocationRecord, placeLabel: string, withIntroduction: bool): seq<Option<string>> {
    [Line(ContinentLabel, r.continent), Line(CountryLabel, r.country),
     Line(ProvinceLabel, r.province), Line(CityLabel, r.city),
     Line(placeLabel, r.location), CoordinatesLine(r.latitude, r.longitude)]
    + (if withIntroduction then [Line(IntroductionLabel, r.introduction)] else [])
  }

  /** `filter(Boolean)`: the present candidates, in order. */
  function Kept(cs: seq<Option<string>>): (kept: seq<string>)
    ensures |kept| <= |cs|
  {
    if cs == [] then []
    else (if cs[0].Some? then [cs[0].value] else []) + Kept(cs[1..])
  }

  /** The summary text. */
  function Describe(r: LocationRecord, placeLabel: string, withIntroduction: bool): string {
    Join(Kept(Candidates(r, placeLabel, withIntroduction)), "\n")
  }

  /** No field is present: every candidate is dropped. */
  predicate NothingTruthy(r: LocationRecord, withIntroduction: bool) {
    !Truthy(r.continent) && !Truthy(r.country) && !Truthy(r.province) && !Truthy(r.city) &&
    !Truthy(r.location) && !(Truthy(r.latitude) && Truthy(r.longitude)) &&
    (withIntroduction ==> !Truthy(r.introduction))
  }

  /** `filter(Boolean)` keeps exactly the present candidates. */
  lemma {:induction false} KeptMembers(cs: seq<Option<string>>)
    ensures forall x :: x in Kept(cs) <==> Some(x) in cs
  {
    if cs != [] {
      KeptMembers(cs[1..]);
      assert forall o :: o in cs <==> o == cs[0] || o in cs[1..];
    }
  }

  /** Filtering a concatenation filters each part, so the kept lines keep
      the order of their candidates. */
  lemma {:induction false} KeptAppend(a: seq<Option<string>>, b: seq<Option<string>>)
    ensures Kept(a + b) == Kept(a) + Kept(b)
    decreases |a|
  {
    if a != [] {
      var h := if a[0].Some? then [a[0].value] else [];
      assert (a + b)[0] == a[0];
      assert (a + b)[1..] == a[1..] + b;
      KeptAppend(a[1..], b);
      assert Kept(a + b) == h + Kept(a[1..] + b);
      assert Kept(a) == h + Kept(a[1..]);
      assert h + (Kept(a[1..]) + Kept(b)) == (h + Kept(a[1..])) + Kept(b);
    } else {
      assert a + b == b;
    }
  }

  /** Order is kept: a line whose candidate comes before position `j` is
      output before every line whose candidate is at `j` or later. */
  lemma KeptInOrder(cs: seq<Option<string>>, i: nat, j: nat)
    requires i < j < |cs| && cs[i].Some? && cs[j].Some?
    ensures var k := Kept(cs);
      exists a, b :: k == a + b && cs[i].value in a && cs[j].value in b
  {
    KeptAppend(cs[..j], cs[j..]);
    KeptMembers(cs[..j]);
    KeptMembers(cs[j..]);
    assert cs[..j] + cs[j..] == cs;
    assert cs[..j][i] == cs[i];
    assert cs[j..][0] == cs[j];
  }

  /** A join of pieces that are all non-empty is empty exactly when there
      are no pieces. */
  lemma JoinEmptyIff(parts: seq<string>, sep: string)
    requires forall p :: p in parts ==> p != []
    ensures Join(parts, sep) == [] <==> parts == []
  {
    if |parts| >= 1 {
      assert parts[0] in parts;
    }
  }

  /** The first character of each candidate's label, slot by slot. */
  function Heads(placeLabel: string): seq<char>
    requires placeLabel != []
  {
    [ContinentLabel[0], CountryLabel[0], ProvinceLabel[0], CityLabel[0],
     placeLabel[0], CoordinatesLabel[0], IntroductionLabel[0]]
  }

  /** Every present candidate is non-empty and starts with its slot's
      label. */
  lemma CandidateHeads(r: LocationRecord, placeLabel: string, withIntroduction: bool)
    requires placeLabel != []
    ensures var cs := Candidates(r, placeLabel, withIntroduction);
      forall j :: 0 <= j < |cs| && cs[j].Some? ==> cs[j].value != [] && cs[j].value[0] == Heads(placeLabel)[j]
  {
  }

  lemma {:induction false} KeptNothing(cs: seq<Option<string>>)
    requires forall j :: 0 <= j < |cs| ==> cs[j].None?
    ensures Kept(cs) == []
    decreases |cs|
  {
    if cs != [] {
      KeptNothing(cs[1..]);
    }
  }

  /** The summary is empty exactly when no field is truthy. */
  lemma DescribeEmptyIff(r: LocationRecord, placeLabel: string, withIntroduction: bool)
    requires placeLabel != []
    ensures Describe(r, placeLabel, withIntroduction) == [] <==> NothingTruthy(r, withIntroduction)
  {
    var cs := Candidates(r, placeLabel, withIntroduction);
    CandidateHeads(r, placeLabel, withIntroduction);
    KeptMembers(cs);
    forall x | Some(x) in cs ensures x != [] {
      var i :| 0 <= i < |cs| && cs[i] == Some(x);
    }
    JoinEmptyIff(Kept(cs), "\n");
    if NothingTruthy(r, withIntroduction) {
      KeptNothing(cs);
    } else {
      var i: nat :| i < |cs| && cs[i].Some?;
      assert cs[i].value in Kept(cs);
    }
  }

  /** A line that can only come from slot `i` is kept exactly when slot `i`
      holds it. */
  lemma KeptFromSlot(cs: seq<Option<string>>, i: nat, x: string)
    requires i < |cs| && x != []
    requires cs[i].Some? ==> cs[i].value == x
    requires forall j :: 0 <= j < |cs| && j != i && cs[j].Some? ==> cs[j].value != [] && cs[j].value[0] != x[0]
    ensures x in Kept(cs) <==> cs[i].Some?
  {
    KeptMembers(cs);
    if x in Kept(cs) {
      var j :| 0 <= j < |cs| && cs[j] == Some(x);
    }
    if cs[i].Some? {
      assert Some(x) == cs[i];
    }
  }

  /** The line of slot `i`: its label followed by the rendered field(s). */
  function SlotLine(r: LocationRecord, placeLabel: string, i: nat): string
    requires i < 7
  {
    if i == 0 then ContinentLabel + Render(r.continent)
    else if i == 1 then CountryLabel + Render(r.country)
    else if i == 2 then ProvinceLabel + Render(r.province)
    else if i == 3 then CityLabel + Render(r.city)
    else if i == 4 then placeLabel + Render(r.location)
    else if i == 5 then CoordinatesLabel + (Render(r.latitude) + ", " + Render(r.longitude))
    else IntroductionLabel + Render(r.introduction)
  }

  /** Whether the field(s) of slot `i` are truthy. */
  predicate SlotTruthy(r: LocationRecord, i: nat)
    requires i < 7
  {
    if i == 0 then Truthy(r.continent)
    else if i == 1 then Truthy(r.country)
    else if i == 2 then Truthy(r.province)
    else if i == 3 then Truthy(r.city)
    else if i == 4 then Truthy(r.location)
    else if i == 5 then Truthy(r.latitude) && Truthy(r.longitude)
    else Truthy(r.introduction)
  }

  lemma CandidateSlot(r: LocationRecord, placeLabel: string, withIntroduction: bool, i: nat)
    requires placeLabel != []
    requires i < |Candidates(r, placeLabel, withIntroduction)|
    ensures Candidates(r, placeLabel, withIntroduction)[i] ==
      if SlotTruthy(r, i) then Some(SlotLine(r, placeLabel, i)) else None
    ensures SlotLine(r, placeLabel, i) != [] && SlotLine(r, placeLabel, i)[0] == Heads(placeLabel)[i]
  {
  }

  /** Slot `i`'s label head appears in no other present candidate. */
  lemma OtherSlotsDiffer(r: LocationRecord, placeLabel: string, withIntroduction: bool, i: nat)
    requires placeLabel == RoutePlaceLabel || placeLabel == CardPlaceLabel
    requires i < 7
    ensures var cs := Candidates(r, placeLabel, withIntroduction);
      forall j :: 0 <= j < |cs| && j != i && cs[j].Some? ==>
        cs[j].value != [] && cs[j].value[0] != Heads(placeLabel)[i]
  {
    var hs := Heads(placeLabel);
    CandidateHeads(r, placeLabel, withIntroduction);
    assert forall a, b :: 0 <= a < b < |hs| ==> hs[a] != hs[b];
  }

  /** The summary has six slots (seven with the introduction), and the
      line of slot `i` (its label, then the rendered field) is in it exactly
      when that slot's field is truthy, for the coordinates when both
      coordinates are; without the introduction slot its line never
      appears. */
  lemma LinePresentIff(r: LocationRecord, placeLabel: string, withIntroduction: bool, i: nat)
    requires placeLabel == RoutePlaceLabel || placeLabel == CardPlaceLabel
    requires i < 7
    ensures |Candidates(r, placeLabel, withIntroduction)| == if withIntroduction then 7 else 6
    ensures SlotLine(r, placeLabel, i) in Kept(Candidates(r, placeLabel, withIntroduction)) <==>
      SlotTruthy(r, i) && (i < 6 || withIntroduction)
  {
    var cs := Candidates(r, placeLabel, withIntroduction);
    OtherSlotsDiffer(r, placeLabel, withIntroduction, i);
    if i < |cs| {
      CandidateSlot(r, placeLabel, withIntroduction, i);
      KeptFromSlot(cs, i, SlotLine(r, placeLabel, i));
    } else {
      CandidateSlot(r, placeLabel, true, i);
      KeptMembers(cs);
      forall x | x in Kept(cs) ensures x != SlotLine(r, placeLabel, i) {
        var j :| 0 <= j < |cs| && cs[j] == Some(x);
      }
    }
  }
}
