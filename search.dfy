/** The search page (search.js): its single-select filter rows, the region picker with
    its list of selected regions, the reset of the filters, and the request the search
    button sends to the policy search. */
module Search {
  import opened Strings
  import opened JsText
  import opened Buttons
  import opened Wrappers
  import Views

  /** The text the region field shows when no region is applied. */
  const Placeholder := "선택하세요."
  /** The district entry that stands for a whole province. */
  const WholeProvince := "전체"

  /** `regionData`: the districts the picker lists for each province code. */
  const RegionData: map<string, seq<string>> := map[
    "all" := ["전체"],
    "seoul" := ["전체", "강남구", "강동구", "강북구", "강서구", "관악구", "광진구", "구로구", "금천구", "노원구", "도봉구",
                "동대문구", "동작구", "마포구", "서대문구", "서초구", "성동구", "성북구", "송파구", "양천구", "영등포구", "용산구",
                "은평구", "종로구", "중구", "중랑구"],
    "busan" := ["전체", "강서구", "금정구", "기장군", "남구", "동구", "동래구", "부산진구", "북구", "사상구", "사하구", "서구",
                "수영구", "연제구", "영도구", "중구", "해운대구"],
    "daegu" := ["전체", "남구", "달서구", "달성군", "동구", "북구", "서구", "수성구", "중구"],
    "incheon" := ["전체", "강화군", "계양구", "미추홀구", "남동구", "동구", "부평구", "서구", "연수구", "옹진군", "중구"],
    "gwangju" := ["전체", "광산구", "남구", "동구", "북구", "서구"],
    "daejeon" := ["전체", "대덕구", "동구", "서구", "유성구", "중구"],
    "ulsan" := ["전체", "남구", "동구", "북구", "울주군", "중구"],
    "sejong" := ["전체"],
    "gyeonggi" := ["전체", "가평군", "고양시", "과천시", "광명시", "광주시", "구리시", "군포시", "김포시", "남양주시", "동두천시",
                   "부천시", "성남시", "수원시", "시흥시", "안산시", "안성시", "안양시", "양주시", "양평군", "여주시", "연천군",
                   "오산시", "용인시", "의왕시", "의정부시", "이천시", "파주시", "평택시", "포천시", "하남시", "화성시"],
    "gangwon" := ["전체", "강릉시", "고성군", "동해시", "삼척시", "속초시", "양구군", "양양군", "영월군", "원주시", "인제군",
                  "정선군", "철원군", "춘천시", "태백시", "평창군", "홍천군", "화천군", "횡성군"],
    "chungbuk" := ["전체", "괴산군", "단양군", "보은군", "영동군", "옥천군", "음성군", "제천시", "증평군", "진천군", "청주시",
                   "충주시"],
    "chungnam" := ["전체", "계룡시", "공주시", "금산군", "논산시", "당진시", "보령시", "부여군", "서산시", "서천군", "아산시",
                   "예산군", "천안시", "청양군", "태안군", "홍성군"],
    "jeonbuk" := ["전체", "고창군", "군산시", "김제시", "남원시", "무주군", "부안군", "순창군", "완주군", "익산시", "임실군",
                  "장수군", "전주시", "정읍시", "진안군"],
    "jeonnam" := ["전체", "강진군", "고흥군", "곡성군", "광양시", "구례군", "나주시", "담양군", "목포시", "무안군", "보성군",
                  "순천시", "신안군", "여수시", "영광군", "영암군", "완도군", "장성군", "장흥군", "진도군", "함평군", "해남군",
                  "화순군"],
    "gyeongbuk" := ["전체", "경산시", "경주시", "고령군", "구미시", "군위군", "김천시", "문경시", "봉화군", "상주시", "성주군",
                    "안동시", "영덕군", "영양군", "영주시", "영천시", "예천군", "울릉군", "울진군", "의성군", "청도군", "청송군",
                    "칠곡군", "포항시"],
    "gyeongnam" := ["전체", "거제시", "거창군", "고성군", "김해시", "남해군", "밀양시", "사천시", "산청군", "양산시", "의령군",
                    "진주시", "창녕군", "창원시", "통영시", "하동군", "함안군", "함양군", "합천군"],
    "jeju" := ["전체", "서귀포시", "제주시"]
  ]

  // ---- single-select filter rows ----

  /** One `.filter-row`: the captions of its `.tag-btn` buttons and their `active` classes. */
  class Row {
    const labels: seq<string>
    const active: array<bool>

    ghost predicate Valid()
      reads this
    {
      active.Length == |labels|
    }

    constructor (labels: seq<string>, flags: seq<bool>)
      requires |flags| == |labels|
      ensures Valid() && this.labels == labels && active[..] == flags && fresh(active)
    {
      this.labels := labels;
      active := new bool[|labels|](i requires 0 <= i < |labels| reads {} => flags[i]);
    }

    /** The click handler of button `k`: every button of the row is deactivated, then `k`
        is activated. */
    method Click(k: nat)
      requires Valid() && k < |labels|
      modifies active
      ensures active[..] == OneHot(|labels|, k)
    {
      var i := 0;
      while i < active.Length
        invariant 0 <= i <= active.Length
        invariant forall j :: 0 <= j < i ==> !active[j]
      {
        active[i] := false;
        i := i + 1;
      }
      active[k] := true;
    }

    /** `resetFilters` on this row: only its first button is active. */
    method Reset()
      requires Valid()
      modifies active
      ensures active[..] == OneHot(|labels|, 0)
    {
      var i := 0;
      while i < active.Length
        invariant 0 <= i <= active.Length
        invariant forall j :: 0 <= j < i ==> active[j] == (j == 0)
      {
        active[i] := i == 0;
        i := i + 1;
      }
    }
  }

  /** `Array.from(row.querySelectorAll('.tag-btn.active')).map(btn => btn.textContent.trim())`:
      the trimmed captions of the active buttons, in document order. */
  function ActiveTexts(labels: seq<string>, flags: seq<bool>): (r: seq<string>)
    requires |flags| == |labels|
    ensures |r| == CountTrue(flags)
  {
    if labels == [] then []
    else (if flags[0] then [Trim(labels[0])] else []) + ActiveTexts(labels[1..], flags[1..])
  }

  /** The indices of the active buttons, in increasing order. */
  function ActiveIndices(flags: seq<bool>): (r: seq<nat>)
    ensures forall j :: 0 <= j < |r| ==> r[j] < |flags| && flags[r[j]]
    ensures forall j, k :: 0 <= j < k < |r| ==> r[j] < r[k]
    ensures forall i :: 0 <= i < |flags| && flags[i] ==> i in r
  {
    if flags == [] then []
    else
      var n := |flags| - 1;
      var front := ActiveIndices(flags[..n]);
      assert forall i :: 0 <= i < n ==> flags[..n][i] == flags[i];
      front + (if flags[n] then [n] else [])
  }

  /** The captions sent are those of the active buttons, trimmed, in document order. */
  lemma {:induction false} ActiveTextsLists(labels: seq<string>, flags: seq<bool>)
    requires |flags| == |labels|
    ensures var r := ActiveTexts(labels, flags); var idx := ActiveIndices(flags);
      |r| == |idx| && forall j :: 0 <= j < |r| ==> r[j] == Trim(labels[idx[j]])
  {
    if labels != [] {
      var n := |labels| - 1;
      ActiveTextsSnoc(labels, flags);
      ActiveTextsLists(labels[..n], flags[..n]);
    }
  }

  /** `ActiveTexts` read from the last button backwards. */
  lemma {:induction false} ActiveTextsSnoc(labels: seq<string>, flags: seq<bool>)
    requires |flags| == |labels| > 0
    ensures var n := |labels| - 1;
      ActiveTexts(labels, flags)
        == ActiveTexts(labels[..n], flags[..n]) + (if flags[n] then [Trim(labels[n])] else [])
  {
    var n := |labels| - 1;
    if n > 0 {
      ActiveTextsSnoc(labels[1..], flags[1..]);
      assert labels[1..][..n - 1] == labels[..n][1..];
      assert flags[1..][..n - 1] == flags[..n][1..];
    }
  }

  /** A row with exactly button `k` active contributes exactly `k`'s trimmed caption. */
  lemma {:induction false} ActiveTextsOneHot(labels: seq<string>, k: nat)
    requires k < |labels|
    ensures ActiveTexts(labels, OneHot(|labels|, k)) == [Trim(labels[k])]
  {
    var flags := OneHot(|labels|, k);
    assert flags[1..] == OneHot(|labels| - 1, k - 1);
    if k == 0 {
      NoneActive(labels[1..], flags[1..]);
    } else {
      ActiveTextsOneHot(labels[1..], k - 1);
    }
  }

  lemma NoneActive(labels: seq<string>, flags: seq<bool>)
    requires |flags| == |labels| && forall i :: 0 <= i < |flags| ==> !flags[i]
    ensures ActiveTexts(labels, flags) == []
  {
    CountTrueZeroIff(flags);
  }

  // ---- the region picker ----

  /** `currentProvince`: `{value, name}`. */
  datatype Province = Province(value: string, name: string)

  /** An element of `selectedRegionTags`. */
  datatype RegionTag = RegionTag(province: string, provinceName: string, district: string, display: string)

  /** The text a selected region shows: a whole province by its name, a district after
      its province's name. */
  function DisplayText(provinceName: string, district: string): (r: string)
    ensures IsPrefix(provinceName, r)
    ensures district == WholeProvince ==> |r| == |provinceName|
    ensures district != WholeProvince ==> r[|provinceName|..] == " " + district
  {
    if district == WholeProvince then provinceName else provinceName + " " + district
  }

  /** Whether a selected region has this province and district. */
  predicate HasKey(tags: seq<RegionTag>, province: string, district: string) {
    exists i :: 0 <= i < |tags| && tags[i].province == province && tags[i].district == district
  }

  /** No two selected regions have the same province and district. */
  predicate DistinctKeys(tags: seq<RegionTag>) {
    forall i, j :: 0 <= i < j < |tags| ==>
      tags[i].province != tags[j].province || tags[i].district != tags[j].district
  }

  /** Every selected region shows its own display text. */
  predicate DisplaysMatch(tags: seq<RegionTag>) {
    forall t :: t in tags ==> t.display == DisplayText(t.provinceName, t.district)
  }

  /** `tags.splice(index, 1)`: a negative index counts from the end (and is clamped to the
      first element), and an index at or past the end removes nothing. */
  function Splice(tags: seq<RegionTag>, index: int): seq<RegionTag> {
    var n := |tags|;
    var start := if index < 0 then (if n + index < 0 then 0 else n + index) else index;
    if start < n then tags[..start] + tags[start + 1..] else tags
  }

  /** For an index in range, exactly that element goes and the others keep their order. */
  lemma SpliceInRange(tags: seq<RegionTag>, index: int)
    requires 0 <= index < |tags|
    ensures var r := Splice(tags, index);
      && |r| == |tags| - 1
      && (forall j :: 0 <= j < index ==> r[j] == tags[j])
      && (forall j :: index <= j < |r| ==> r[j] == tags[j + 1])
  {
  }

  /** An index past the end changes nothing; a negative one removes an element counted
      from the end. */
  lemma SpliceOutOfRange(tags: seq<RegionTag>, index: int)
    ensures index >= |tags| ==> Splice(tags, index) == tags
    ensures -|tags| <= index < 0 ==> Splice(tags, index) == Splice(tags, |tags| + index)
  {
  }

  /** Removing an element keeps the selection duplicate-free and well displayed. */
  lemma SpliceKeeps(tags: seq<RegionTag>, index: int)
    requires DistinctKeys(tags) && DisplaysMatch(tags)
    ensures DistinctKeys(Splice(tags, index)) && DisplaysMatch(Splice(tags, index))
  {
    var n := |tags|;
    var start := if index < 0 then (if n + index < 0 then 0 else n + index) else index;
    if start < n {
      RemoveAtKeeps(tags, start);
    }
  }

  lemma RemoveAtKeeps(tags: seq<RegionTag>, start: nat)
    requires start < |tags| && DistinctKeys(tags) && DisplaysMatch(tags)
    ensures var r := tags[..start] + tags[start + 1..]; DistinctKeys(r) && DisplaysMatch(r)
  {
    var r := tags[..start] + tags[start + 1..];
    assert forall i :: 0 <= i < |r| ==> r[i] == tags[Skip(i, start)];
    assert forall t :: t in r ==> t in tags;
  }

  /** The index in the original list of the `i`-th element left after removing `start`. */
  function Skip(i: int, start: int): int {
    if i < start then i else i + 1
  }

  /** `applyRegionSelection`'s text: the placeholder, the only region, or the first region
      and how many more. */
  function Summary(tags: seq<RegionTag>): string {
    if |tags| == 0 then Placeholder
    else if |tags| == 1 then tags[0].display
    else tags[0].display + " 외 " + NatToString(|tags| - 1) + "곳"
  }

  /** With several regions, the text names the first and a decimal count of the others. */
  lemma SummaryCountsOthers(tags: seq<RegionTag>)
    requires |tags| >= 2
    ensures exists numeral :: && Summary(tags) == tags[0].display + " 외 " + numeral + "곳"
                              && AllDigits(numeral) && DigitsValue(numeral) == |tags| - 1
  {
    DigitsValueOfNatToString(|tags| - 1);
    var numeral := NatToString(|tags| - 1);
    assert Summary(tags) == tags[0].display + " 외 " + numeral + "곳";
  }

  /** `region` of the search request: the province code of the first selected region. */
  function SearchRegion(tags: seq<RegionTag>): string {
    if tags != [] then tags[0].province else ""
  }

  /** Regions selected after the first do not change the request. */
  lemma SearchRegionFirstOnly(tags: seq<RegionTag>, more: seq<RegionTag>)
    requires tags != []
    ensures SearchRegion(tags + more) == SearchRegion(tags) == tags[0].province
  {
    assert (tags + more)[0] == tags[0];
  }

  /** The state of the region picker (`selectedRegionTags`, `currentProvince`) and the
      parts of the page it drives. */
  class RegionPicker {
    var selectedTags: seq<RegionTag>
    var currentProvince: Option<Province>
    /** The title of the district column. */
    var districtTitle: string
    /** The entries of `#district-list`. */
    var districts: seq<string>
    /** `#selected-region-text` */
    var selectedText: string

    ghost predicate Valid()
      reads this
    {
      DistinctKeys(selectedTags) && DisplaysMatch(selectedTags)
    }

    constructor ()
      ensures Valid() && selectedTags == [] && currentProvince == None
      ensures districtTitle == WholeProvince && districts == [] && selectedText == Placeholder
    {
      selectedTags, currentProvince := [], None;
      districtTitle, districts, selectedText := WholeProvince, [], Placeholder;
    }

    /** `selectProvinceClick`: the province becomes current and titles the district column,
        which lists its districts; for a code `regionData` lacks, the list is left as it
        was. */
    method SelectProvinceClick(province: string, provinceName: string)
      modifies this`currentProvince, this`districtTitle, this`districts
      ensures currentProvince == Some(Province(province, provinceName))
      ensures districtTitle == provinceName
      ensures districts == if province in RegionData then RegionData[province] else old(districts)
    {
      currentProvince := Some(Province(province, provinceName));
      districtTitle := provinceName;
      if province in RegionData {
        districts := RegionData[province];
      }
    }

    /** `selectDistrictClick`: the region is appended unless one with the same province
        and district is already selected. */
    method SelectDistrictClick(province: string, provinceName: string, district: string)
      requires Valid()
      modifies this`selectedTags
      ensures Valid()
      ensures HasKey(old(selectedTags), province, district) ==> selectedTags == old(selectedTags)
      ensures !HasKey(old(selectedTags), province, district) ==>
        selectedTags == old(selectedTags) + [RegionTag(province, provinceName, district,
                                                       DisplayText(provinceName, district))]
      ensures HasKey(selectedTags, province, district)
    {
      var displayText := DisplayText(provinceName, district);
      if !HasKey(selectedTags, province, district) {
        var tag := RegionTag(province, provinceName, district, displayText);
        selectedTags := selectedTags + [tag];
        assert selectedTags[|selectedTags| - 1] == tag;
      }
    }

    /** `removeSelectedRegionTag(index)`: `splice(index, 1)`. */
    method RemoveSelectedRegionTag(index: int)
      requires Valid()
      modifies this`selectedTags
      ensures Valid()
      ensures selectedTags == Splice(old(selectedTags), index)
    {
      SpliceKeeps(selectedTags, index);
      selectedTags := Splice(selectedTags, index);
    }

    /** `resetRegionSelection`: no region selected, no province current, the district
        column back to its title '전체' and empty. */
    method ResetRegionSelection()
      modifies this`selectedTags, this`currentProvince, this`districtTitle, this`districts
      ensures Valid()
      ensures selectedTags == [] && currentProvince == None
      ensures districtTitle == WholeProvince && districts == []
    {
      selectedTags, currentProvince := [], None;
      districts, districtTitle := [], WholeProvince;
    }

    /** `applyRegionSelection`: the region field shows the summary of the selection. */
    method ApplyRegionSelection()
      modifies this`selectedText
      ensures selectedText == Summary(selectedTags)
    {
      selectedText := Summary(selectedTags);
    }
  }

  // ---- the whole filter panel ----

  /** The rows whose active buttons the search sends: education, major, employment status
      and specialization are the third to sixth `.filter-row`. */
  const EducationRow := 2
  const MajorRow := 3
  const EmploymentRow := 4
  const SpecializationRow := 5

  ghost predicate RowsValid(rows: seq<Row>)
    reads set r | r in rows
  {
    forall r :: r in rows ==> r.Valid()
  }

  /** The tags one row sends. */
  function RowTags(r: Row): Views.TagParam
    reads r, r.active
    requires r.Valid()
  {
    Views.Tags(ActiveTexts(r.labels, r.active[..]))
  }

  /** `executeSearch` up to its `fetch`: the body it posts, from the values of the search
      field, the closed-policies checkbox, the first select and the number fields (each
      read as '' when the element is missing), the selected regions and the rows. A page
      with fewer than six rows throws when it reads a missing row, and nothing is sent. */
  method ExecuteSearch(query: string, excludeClosed: bool, maritalStatus: string, age: string,
                       incomeMin: string, incomeMax: string, rows: seq<Row>, picker: RegionPicker)
    returns (request: Option<Views.SearchRequest>)
    requires RowsValid(rows)
    ensures |rows| <= SpecializationRow ==> request == None
    ensures |rows| > SpecializationRow ==> request == Some(Views.SearchRequest(
      Trim(query), excludeClosed, SearchRegion(picker.selectedTags), maritalStatus, age,
      incomeMin, incomeMax, RowTags(rows[EducationRow]), RowTags(rows[MajorRow]),
      RowTags(rows[EmploymentRow]), RowTags(rows[SpecializationRow])))
  {
    var searchQuery := Trim(query);
    var region := "";
    if |picker.selectedTags| > 0 {
      region := picker.selectedTags[0].province;
    }
    if |rows| <= SpecializationRow {
      return None;
    }
    assert rows[EducationRow] in rows && rows[MajorRow] in rows;
    assert rows[EmploymentRow] in rows && rows[SpecializationRow] in rows;
    var education := ActiveTexts(rows[EducationRow].labels, rows[EducationRow].active[..]);
    var major := ActiveTexts(rows[MajorRow].labels, rows[MajorRow].active[..]);
    var employment := ActiveTexts(rows[EmploymentRow].labels, rows[EmploymentRow].active[..]);
    var specialization := ActiveTexts(rows[SpecializationRow].labels, rows[SpecializationRow].active[..]);
    request := Some(Views.SearchRequest(searchQuery, excludeClosed, region, maritalStatus, age,
                                        incomeMin, incomeMax, Views.Tags(education), Views.Tags(major),
                                        Views.Tags(employment), Views.Tags(specialization)));
  }

  /** The row and region part of `resetFilters`: every row has only its first button
      active, and the region selection is cleared and the region field shows the
      placeholder. */
  method ResetFilters(rows: seq<Row>, picker: RegionPicker)
    requires RowsValid(rows)
    requires forall a, b :: 0 <= a < b < |rows| ==> rows[a].active != rows[b].active
    modifies set r | r in rows :: r.active
    modifies picker
    ensures forall a :: 0 <= a < |rows| ==> rows[a].active[..] == OneHot(|rows[a].labels|, 0)
    ensures picker.Valid() && picker.selectedTags == [] && picker.currentProvince == None
    ensures picker.selectedText == Placeholder
    ensures picker.districtTitle == WholeProvince && picker.districts == []
  {
    var i := 0;
    while i < |rows|
      invariant 0 <= i <= |rows|
      invariant forall a :: 0 <= a < i ==> rows[a].active[..] == OneHot(|rows[a].labels|, 0)
    {
      rows[i].Reset();
      i := i + 1;
    }
    picker.selectedTags, picker.currentProvince := [], None;
    picker.selectedText := Placeholder;
    picker.districts, picker.districtTitle := [], WholeProvince;
  }

  /** A row whose first button is '제한없음' sends, once reset, a list the policy search
      does not filter by; an empty row sends an empty list, which does not filter either. */
  lemma ResetRowDoesNotFilter(labels: seq<string>)
    requires labels == [] || Trim(labels[0]) == NoLimit
    ensures !Views.TagFilterApplies(Views.Tags(ActiveTexts(labels, OneHot(|labels|, 0))))
  {
    if labels != [] {
      ActiveTextsOneHot(labels, 0);
    } else {
      assert OneHot(0, 0) == [];
    }
  }

  /** Only the first selected region reaches the server, and the region filter looks for
      its province's name: an empty selection passes every policy, any other selection
      passes exactly the policies whose region names the first region's province,
      whatever its district and whatever regions follow. */
  lemma FirstRegionDecides(tags: seq<RegionTag>, p: Views.Policy)
    ensures tags == [] ==> Views.RegionOk(SearchRegion(tags), p)
    ensures tags != [] ==>
      (Views.RegionOk(SearchRegion(tags), p) <==>
       Contains(p.region, Views.RegionName(tags[0].province)))
    ensures tags != [] && tags[0].province == "seoul" ==>
      (Views.RegionOk(SearchRegion(tags), p) <==> Contains(p.region, "서울"))
  {
    if tags != [] && tags[0].province == "" {
      ContainsSelfAndEmpty(p.region);
    }
    assert "seoul" in Views.RegionMap;
  }
}
