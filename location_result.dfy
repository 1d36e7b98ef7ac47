/** The result card's copy text: `formatLocationText` pushes one labelled
    line per truthy field onto a local array and joins it with newlines.
    Its place line is labelled `地名: ` where the prompts say `地点: `. */
module LocationResult {
  import opened Json
  import opened Strings
  import opened LocationInfo

  /** `if (field) parts.push(\`label${field}\`)`: the line is appended
      exactly when the field is truthy, which is what `filter(Boolean)`
      keeps of the candidate `Line(caption, v)`. */
  method PushIfTruthy(parts: seq<string>, caption: string, v: Option<JsonValue>) returns (r: seq<string>)
    ensures Truthy(v) ==> r == parts + [caption + Render(v)]
    ensures !Truthy(v) ==> r == parts
    ensures r == parts + Kept([Line(caption, v)])
  {
    r := parts;
    if Truthy(v) {
      r := r + [caption + Render(v)];
    }
  }

  /** `formatLocationText`: the same summary the prompts use, with the
      card's place label and no introduction line. */
  method FormatLocationText(data: LocationRecord) returns (text: string)
    ensures text == Describe(data, CardPlaceLabel, false)
  {
    var parts: seq<string> := [];
    parts := PushIfTruthy(parts, ContinentLabel, data.continent);
    assert parts == Kept([Line(ContinentLabel, data.continent)]);
    parts := PushIfTruthy(parts, CountryLabel, data.country);
    parts := PushIfTruthy(parts, ProvinceLabel, data.province);
    parts := PushIfTruthy(parts, CityLabel, data.city);
    parts := PushIfTruthy(parts, CardPlaceLabel, data.location);
    ghost var before := parts;
    if Truthy(data.latitude) && Truthy(data.longitude) {
      parts := parts + [CoordinatesLabel + (Render(data.latitude) + ", " + Render(data.longitude))];
    }
    assert parts == before + Kept([CoordinatesLine(data.latitude, data.longitude)]);
    KeptSlotBySlot(data, CardPlaceLabel);
    text := Join(parts, "\n");
  }

  /** The kept lines of the six slots are the kept line of each slot, one
      after the other. */
  lemma KeptSlotBySlot(data: LocationRecord, placeLabel: string)
    ensures Kept(Candidates(data, placeLabel, false)) ==
      Kept([Line(ContinentLabel, data.continent)]) + Kept([Line(CountryLabel, data.country)])
      + Kept([Line(ProvinceLabel, data.province)]) + Kept([Line(CityLabel, data.city)])
      + Kept([Line(placeLabel, data.location)]) + Kept([CoordinatesLine(data.latitude, data.longitude)])
  {
    var cs := Candidates(data, placeLabel, false);
    KeptOneByOne(cs);
  }

  /** `filter(Boolean)` over six candidates keeps each one's line in
      turn. */
  lemma KeptOneByOne(cs: seq<Option<string>>)
    requires |cs| == 6
    ensures Kept(cs) ==
      Kept([cs[0]]) + Kept([cs[1]]) + Kept([cs[2]]) + Kept([cs[3]]) + Kept([cs[4]]) + Kept([cs[5]])
  {
    assert Kept(cs) == Kept(cs[..5]) + Kept([cs[5]]) by {
      assert cs == cs[..5] + [cs[5]];
      KeptAppend(cs[..5], [cs[5]]);
    }
    assert Kept(cs[..5]) == Kept(cs[..4]) + Kept([cs[4]]) by {
      assert cs[..5] == cs[..4] + [cs[4]];
      KeptAppend(cs[..4], [cs[4]]);
    }
    assert Kept(cs[..4]) == Kept(cs[..3]) + Kept([cs[3]]) by {
      assert cs[..4] == cs[..3] + [cs[3]];
      KeptAppend(cs[..3], [cs[3]]);
    }
    assert Kept(cs[..3]) == Kept(cs[..2]) + Kept([cs[2]]) by {
      assert cs[..3] == cs[..2] + [cs[2]];
      KeptAppend(cs[..2], [cs[2]]);
    }
    assert Kept(cs[..2]) == Kept([cs[0]]) + Kept([cs[1]]) by {
      assert cs[..2] == [cs[0]] + [cs[1]];
      KeptAppend([cs[0]], [cs[1]]);
    }
  }
}
