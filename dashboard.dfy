/** The tallies the dashboard's `loadData` (dashboard/script.js) computes
    from the scored records before it hands them to the charts: counts per
    risk label and per gender, the Male/Female split, the per-group risk
    counts, the shared label axis of the two group charts and their data
    arrays, and the table's first rows. A JavaScript object used as a counter
    is a `Tally`: its keys in insertion order (what `Object.keys` lists) and
    the count under each. */
module Dashboard {
  import opened Wrappers
  import opened Values
  import opened Seqs

  /** One scored record as the dashboard reads it; `None` is a null or
      missing field. */
  datatype Item = Item(babyId: Json, date: Json, gender: Option<string>, riskLabel: Option<string>)

  /** `x || fallback` for a string field: null, missing and "" are falsy. */
  function OrDefault(x: Option<string>, fallback: string): (r: string)
    ensures x.Some? && x.value != "" ==> r == x.value
    ensures x.None? || x.value == "" ==> r == fallback
  {
    if x.Some? && x.value != "" then x.value else fallback
  }

  const UnknownRisk: string := "Desconhecido"
  const UnknownGender: string := "Indefinido"

  /** `d.predicted_risk_label || "Desconhecido"`. */
  function RiskKey(d: Item): string {
    OrDefault(d.riskLabel, UnknownRisk)
  }

  function RiskKeys(items: seq<Item>): (r: seq<string>)
    ensures |r| == |items| && forall i :: 0 <= i < |items| ==> r[i] == RiskKey(items[i])
  {
    seq(|items|, i requires 0 <= i < |items| => RiskKey(items[i]))
  }

  /** `d.gender || "Indefinido"`. */
  function GenderKeys(items: seq<Item>): (r: seq<string>)
    ensures |r| == |items| && forall i :: 0 <= i < |items| ==> r[i] == OrDefault(items[i].gender, UnknownGender)
  {
    seq(|items|, i requires 0 <= i < |items| => OrDefault(items[i].gender, UnknownGender))
  }

  // ---------------------------------------------------------------------
  // Counters

  datatype Tally = Tally(keys: seq<string>, count: map<string, nat>)

  /** `counts[k] = (counts[k] || 0) + 1`: a new key is added after the others. */
  function Bump(t: Tally, k: string): Tally {
    if k in t.count then Tally(t.keys, t.count[k := t.count[k] + 1])
    else Tally(t.keys + [k], t.count[k := 1])
  }

  /** The counter after counting `labels` one by one. */
  function TallyOf(labels: seq<string>): Tally {
    if labels == [] then Tally([], map[])
    else Bump(TallyOf(labels[..|labels| - 1]), labels[|labels| - 1])
  }

  /** `Object.values(counts)`. */
  function ObjectValues(t: Tally): (r: seq<nat>)
    requires forall k :: k in t.keys ==> k in t.count
    ensures |r| == |t.keys|
    ensures forall i :: 0 <= i < |t.keys| ==> r[i] == t.count[t.keys[i]]
  {
    seq(|t.keys|, i requires 0 <= i < |t.keys| => t.count[t.keys[i]])
  }

  /** The keys are the distinct labels in first-seen order, and each count is
      how often its label occurs. */
  lemma {:induction false} TallyOfCounts(labels: seq<string>)
    ensures TallyOf(labels).keys == Dedup(labels)
    ensures forall k :: k in TallyOf(labels).count <==> k in labels
    ensures forall k :: k in TallyOf(labels).count ==> TallyOf(labels).count[k] == Occ(k, labels)
    decreases |labels|
  {
    if labels != [] {
      var p, x := labels[..|labels| - 1], labels[|labels| - 1];
      TallyOfCounts(p);
      Snoc(labels);
      DedupSnoc(p, x);
      assert forall k :: k in labels <==> k in p || k == x;
    }
  }

  lemma SumOfOccs(keys: seq<string>, labels: seq<string>, t: Tally)
    requires t.keys == keys
    requires forall k :: k in keys ==> k in t.count && t.count[k] == Occ(k, labels)
    ensures Sum(ObjectValues(t)) == OccSum(keys, labels)
  {
    SumOfOccList(ObjectValues(t), keys, labels);
  }

  lemma {:induction false} SumOfOccList(vs: seq<nat>, keys: seq<string>, labels: seq<string>)
    requires |vs| == |keys| && forall i :: 0 <= i < |keys| ==> vs[i] == Occ(keys[i], labels)
    ensures Sum(vs) == OccSum(keys, labels)
    decreases |keys|
  {
    if keys != [] {
      var n := |keys| - 1;
      SumOfOccList(vs[..n], keys[..n], labels);
    }
  }

  /** The counts add up to the number of labels counted. */
  lemma TallyOfSum(labels: seq<string>)
    ensures forall k :: k in TallyOf(labels).keys ==> k in TallyOf(labels).count
    ensures Sum(ObjectValues(TallyOf(labels))) == |labels|
  {
    TallyOfCounts(labels);
    var t := TallyOf(labels);
    SumOfOccs(t.keys, labels, t);
    OccSumCovers(t.keys, labels);
  }

  /** `getRiskCounts(pacientes)`, and the inline `riskCounts` loop over all the data. */
  method GetRiskCounts(items: seq<Item>) returns (risks: Tally)
    ensures risks == TallyOf(RiskKeys(items))
  {
    risks := Tally([], map[]);
    for i := 0 to |items|
      invariant risks == TallyOf(RiskKeys(items)[..i])
    {
      var risk := RiskKey(items[i]);
      assert RiskKeys(items)[..i + 1] == RiskKeys(items)[..i] + [risk];
      risks := Bump(risks, risk);
    }
    assert RiskKeys(items)[..|items|] == RiskKeys(items);
  }

  /** The `genderCounts` loop. */
  method GenderCounts(items: seq<Item>) returns (genders: Tally)
    ensures genders == TallyOf(GenderKeys(items))
  {
    genders := Tally([], map[]);
    for i := 0 to |items|
      invariant genders == TallyOf(GenderKeys(items)[..i])
    {
      var g := OrDefault(items[i].gender, UnknownGender);
      assert GenderKeys(items)[..i + 1] == GenderKeys(items)[..i] + [g];
      genders := Bump(genders, g);
    }
    assert GenderKeys(items)[..|items|] == GenderKeys(items);
  }

  /** Each record is counted once, under its label or "Desconhecido": the
      risk counts add up to the number of records. */
  lemma RiskCountsCover(items: seq<Item>)
    ensures var t := TallyOf(RiskKeys(items));
      (forall k :: k in t.keys ==> k in t.count) &&
      Sum(ObjectValues(t)) == |items| &&
      (forall i :: 0 <= i < |items| && (items[i].riskLabel.None? || items[i].riskLabel.value == "") ==> UnknownRisk in t.count)
  {
    TallyOfSum(RiskKeys(items));
    TallyOfCounts(RiskKeys(items));
    forall i | 0 <= i < |items| && (items[i].riskLabel.None? || items[i].riskLabel.value == "")
      ensures UnknownRisk in RiskKeys(items)
    {
      assert RiskKeys(items)[i] == UnknownRisk;
    }
  }

  /** The same for genders, with "Indefinido" for a missing gender. */
  lemma GenderCountsCover(items: seq<Item>)
    ensures var t := TallyOf(GenderKeys(items));
      (forall k :: k in t.keys ==> k in t.count) && Sum(ObjectValues(t)) == |items|
  {
    TallyOfSum(GenderKeys(items));
  }

  // ---------------------------------------------------------------------
  // Grouping by gender

  /** What `String.prototype.trim` removes: white space and line terminators. */
  predicate IsJsSpace(c: char) {
    c == '\t' || c == '\n' || c == '\U{000B}' || c == '\U{000C}' || c == '\r' || c == ' ' ||
    c == '\U{00A0}' || c == '\U{1680}' || ('\U{2000}' <= c <= '\U{200A}') ||
    c == '\U{2028}' || c == '\U{2029}' || c == '\U{202F}' || c == '\U{205F}' ||
    c == '\U{3000}' || c == '\U{FEFF}'
  }

  function TrimStart(s: string): (r: string)
    ensures |r| <= |s| && r == s[|s| - |r|..]
    ensures forall i :: 0 <= i < |s| - |r| ==> IsJsSpace(s[i])
    ensures r == [] || !IsJsSpace(r[0])
  {
    if s != [] && IsJsSpace(s[0]) then TrimStart(s[1..]) else s
  }

  function TrimEnd(s: string): (r: string)
    ensures |r| <= |s| && r == s[..|r|]
    ensures forall i :: |r| <= i < |s| ==> IsJsSpace(s[i])
    ensures r == [] || !IsJsSpace(r[|r| - 1])
  {
    if s != [] && IsJsSpace(s[|s| - 1]) then TrimEnd(s[..|s| - 1]) else s
  }

  /** `s.trim()`: the string without leading and trailing white space. */
  function Trim(s: string): (r: string)
    ensures r == [] || (!IsJsSpace(r[0]) && !IsJsSpace(r[|r| - 1]))
  {
    var t := TrimStart(s);
    var r := TrimEnd(t);
    assert r != [] ==> r[0] == t[0];
    r
  }

  /** Trimming only removes white space from the ends: what is left is a
      piece of the original, and a trimmed string is its own trim. */
  lemma TrimInfix(s: string)
    ensures exists a, b ::
      (0 <= a <= b <= |s| && Trim(s) == s[a..b] &&
       (forall i :: 0 <= i < a ==> IsJsSpace(s[i])) && (forall i :: b <= i < |s| ==> IsJsSpace(s[i])))
    ensures Trim(Trim(s)) == Trim(s)
  {
    var t := TrimStart(s);
    var a := |s| - |t|;
    var r := TrimEnd(t);
    assert r == s[a..a + |r|];
    forall i | a + |r| <= i < |s| ensures IsJsSpace(s[i]) {
      assert s[i] == t[i - a];
    }
  }

  /** `(d.gender || "Desconhecido").trim()`. */
  function GroupGender(d: Item): string {
    Trim(OrDefault(d.gender, "Desconhecido"))
  }

  /** `genderGroups[g]`: the records whose trimmed gender is `g`, in order. */
  function GroupOf(items: seq<Item>, g: string): (r: seq<Item>)
    ensures |r| <= |items|
    ensures forall d :: d in r <==> d in items && GroupGender(d) == g
  {
    if items == [] then []
    else
      var p, d := items[..|items| - 1], items[|items| - 1];
      assert forall x :: x in items <==> x in p || x == d by {
        assert items == p + [d];
      }
      GroupOf(p, g) + if GroupGender(d) == g then [d] else []
  }

  /** `genderGroups[g]` is the in-order filter of the records whose trimmed gender is `g`. */
  lemma {:induction false} GroupOfFilters(items: seq<Item>, g: string)
    ensures GroupOf(items, g) == Filter(items, d => GroupGender(d) == g)
    decreases |items|
  {
    if items != [] {
      GroupOfFilters(items[..|items| - 1], g);
    }
  }

  /** Every record of the group is pushed once per occurrence; no other record is. */
  lemma GroupOfOcc(items: seq<Item>, g: string, d: Item)
    ensures Occ(d, GroupOf(items, g)) == if GroupGender(d) == g then Occ(d, items) else 0
  {
    GroupOfFilters(items, g);
    FilterOcc(items, d => GroupGender(d) == g, d);
  }

  /** The pushes keep input order: the group of a concatenation is the concatenation of the groups. */
  lemma GroupOfAppend(a: seq<Item>, b: seq<Item>, g: string)
    ensures GroupOf(a + b, g) == GroupOf(a, g) + GroupOf(b, g)
  {
    GroupOfFilters(a, g);
    GroupOfFilters(b, g);
    GroupOfFilters(a + b, g);
    FilterAppend(a, b, d => GroupGender(d) == g);
  }

  /** The records whose trimmed gender is neither "Male" nor "Female". */
  function Ungrouped(items: seq<Item>): (r: seq<Item>)
    ensures forall d :: d in r <==> d in items && GroupGender(d) != "Male" && GroupGender(d) != "Female"
  {
    if items == [] then []
    else
      var p, d := items[..|items| - 1], items[|items| - 1];
      assert forall x :: x in items <==> x in p || x == d by {
        assert items == p + [d];
      }
      Ungrouped(p) + if GroupGender(d) != "Male" && GroupGender(d) != "Female" then [d] else []
  }

  /** The `genderGroups` loop: only "Male" and "Female" have a group to push to. */
  method GenderGroups(items: seq<Item>) returns (male: seq<Item>, female: seq<Item>)
    ensures male == GroupOf(items, "Male") && female == GroupOf(items, "Female")
  {
    male, female := [], [];
    for i := 0 to |items|
      invariant male == GroupOf(items[..i], "Male") && female == GroupOf(items[..i], "Female")
    {
      assert items[..i + 1][..i] == items[..i];
      var gender := GroupGender(items[i]);
      if gender == "Male" {
        male := male + [items[i]];
      } else if gender == "Female" {
        female := female + [items[i]];
      }
    }
    assert items[..|items|] == items;
  }

  /** Every record lands in exactly one of: the Male group, the Female
      group, or neither. */
  lemma {:induction false} GroupsPartition(items: seq<Item>)
    ensures |GroupOf(items, "Male")| + |GroupOf(items, "Female")| + |Ungrouped(items)| == |items|
    decreases |items|
  {
    if items != [] {
      GroupsPartition(items[..|items| - 1]);
    }
  }

  // ---------------------------------------------------------------------
  // The two group charts and the table

  /** `Array.from(new Set([...Object.keys(male), ...Object.keys(female)]))`. */
  function RiskLabels(male: Tally, female: Tally): seq<string> {
    Dedup(male.keys + female.keys)
  }

  /** The label axis: every risk label of either group once, male labels
      first, each where it first appears. */
  lemma RiskLabelsAxis(male: seq<Item>, female: seq<Item>)
    ensures var labels := RiskLabels(TallyOf(RiskKeys(male)), TallyOf(RiskKeys(female)));
      labels == Dedup(RiskKeys(male) + RiskKeys(female)) &&
      NoDup(labels) &&
      forall k :: k in labels <==> k in RiskKeys(male) || k in RiskKeys(female)
  {
    var a, b := RiskKeys(male), RiskKeys(female);
    TallyOfCounts(a);
    TallyOfCounts(b);
    DedupOfDedupPrefix(a, Dedup(b));
    DedupSwap(a, b);
  }

  /** `riskLabels.map(r => counts[r] || 0)`. */
  function ChartData(labels: seq<string>, counts: Tally): (r: seq<nat>)
    ensures |r| == |labels|
  {
    seq(|labels|, i requires 0 <= i < |labels| => if labels[i] in counts.count then counts.count[labels[i]] else 0)
  }

  /** A group's chart shows, for each label on the axis, how many of the
      group's records carry it, 0 for a label only the other group has. */
  lemma ChartDataCounts(labels: seq<string>, group: seq<Item>)
    ensures var data := ChartData(labels, TallyOf(RiskKeys(group)));
      forall i :: 0 <= i < |labels| ==> data[i] == Occ(labels[i], RiskKeys(group))
  {
    TallyOfCounts(RiskKeys(group));
  }

  function Occs(labels: seq<string>, s: seq<string>): (r: seq<nat>)
    ensures |r| == |labels| && forall i :: 0 <= i < |labels| ==> r[i] == Occ(labels[i], s)
  {
    seq(|labels|, i requires 0 <= i < |labels| => Occ(labels[i], s))
  }

  lemma {:induction false} SumOccs(labels: seq<string>, s: seq<string>)
    ensures Sum(Occs(labels, s)) == OccSum(labels, s)
    decreases |labels|
  {
    if labels != [] {
      var p := labels[..|labels| - 1];
      SumOccs(p, s);
      assert Occs(labels, s)[..|labels| - 1] == Occs(p, s);
    }
  }

  /** Each group chart accounts for every record of its group. */
  lemma ChartDataSum(male: seq<Item>, female: seq<Item>)
    ensures var labels := RiskLabels(TallyOf(RiskKeys(male)), TallyOf(RiskKeys(female)));
      Sum(ChartData(labels, TallyOf(RiskKeys(male)))) == |male| &&
      Sum(ChartData(labels, TallyOf(RiskKeys(female)))) == |female|
  {
    var labels := RiskLabels(TallyOf(RiskKeys(male)), TallyOf(RiskKeys(female)));
    RiskLabelsAxis(male, female);
    ChartDataCounts(labels, male);
    ChartDataCounts(labels, female);
    assert ChartData(labels, TallyOf(RiskKeys(male))) == Occs(labels, RiskKeys(male));
    assert ChartData(labels, TallyOf(RiskKeys(female))) == Occs(labels, RiskKeys(female));
    SumOccs(labels, RiskKeys(male));
    SumOccs(labels, RiskKeys(female));
    OccSumCovers(labels, RiskKeys(male));
    OccSumCovers(labels, RiskKeys(female));
  }

  /** `data.slice(0, 20)`: the table rows. */
  function TableRows(items: seq<Item>): (r: seq<Item>)
    ensures |r| <= 20 && |r| <= |items| && r == items[..|r|]
    ensures |r| == if |items| < 20 then |items| else 20
  {
    if |items| <= 20 then items else items[..20]
  }

  /** The colour class of a table row's risk cell. */
  function RiskColour(risk: Option<string>): (c: string)
    ensures c == "red" <==> risk == Some("High")
    ensures c == "yellow" <==> risk == Some("Medium")
    ensures c == "green" <==> risk != Some("High") && risk != Some("Medium")
  {
    if risk == Some("High") then "red" else if risk == Some("Medium") then "yellow" else "green"
  }
}
