/** The data logic of the demo table block
    (packages/core/client/docs/zh-CN/core/event-and-filter/demos/models/table.tsx):
    the mock data source, the field-to-column conversion, and the two
    pagination updates its flows perform. */
module DemoTable {
  import opened JsValues

  /** The number of rows the mock data source pretends to hold. */
  const Total: int := 256

  const Cities: seq<string> := ["北京", "上海", "广州", "深圳", "杭州", "南京", "成都", "武汉"]

  /** One mock row; `city` is undefined when the index into the city list is
      negative, which happens for negative ids. */
  datatype MockRow = MockRow(id: int, name: string, age: int, email: string, city: Value)

  /** The row generated for `id`. */
  function MockRowFor(id: int): (r: MockRow)
    ensures r.id == id
    ensures r.name == "用户" + IntToString(id)
    ensures r.email == "user" + IntToString(id) + "@example.com"
    ensures r.age == 20 + JsRem(id, 40)
    ensures JsRem(id, 8) >= 0 ==> r.city == Str(Cities[JsRem(id, 8)])
    ensures JsRem(id, 8) < 0 ==> r.city == Undefined
  {
    var c := JsRem(id, 8);
    MockRow(id, "用户" + IntToString(id), 20 + JsRem(id, 40), "user" + IntToString(id) + "@example.com",
            if c >= 0 then Str(Cities[c]) else Undefined)
  }

  /** For a non-negative id the age lies in [20, 59] and the city is the
      `id % 8`-th entry of the city list. */
  lemma MockRowRanges(id: int)
    requires id >= 0
    ensures 20 <= MockRowFor(id).age <= 59
    ensures MockRowFor(id).city == Str(Cities[id % 8])
  {
  }

  /** A row's name and email each carry its id in decimal, so either one
      gives the id back. */
  lemma MockRowTextEncodesId(id: int)
    ensures ParseInt(MockRowFor(id).name[2..]) == id
    ensures var e := MockRowFor(id).email; |e| >= 16 && ParseInt(e[4..|e| - 12]) == id
  {
    var digits := IntToString(id);
    IntToStringRoundTrip(id);
    assert MockRowFor(id).name[2..] == digits;
    var e := MockRowFor(id).email;
    assert e[4..|e| - 12] == digits;
  }

  function Min(a: int, b: int): int { if a <= b then a else b }
  function Max(a: int, b: int): int { if a >= b then a else b }

  /** The number of rows of a page that starts at row `startIndex` and holds
      `pageSize` rows: the page size, cut off at the end of the data, and
      never negative. */
  function RowCount(startIndex: int, pageSize: int): nat {
    Max(0, Min(pageSize, Total - startIndex))
  }

  /** The index of the first row of page `page`. */
  function StartIndex(page: int, pageSize: int): int {
    (page - 1) * pageSize
  }

  lemma StartIndexOfPositivePage(page: int, pageSize: int)
    requires page >= 1 && pageSize >= 0
    ensures StartIndex(page, pageSize) >= 0
  {
  }

  /** The rows for the `n` ids that follow `startIndex`, in id order, each
      built by `row`. */
  function RowsAfter(startIndex: int, n: nat, row: int -> MockRow): seq<MockRow>
    decreases n
  {
    if n == 0 then [] else RowsAfter(startIndex, n - 1, row) + [row(startIndex + n)]
  }

  lemma {:induction false} RowsAfterAt(startIndex: int, n: nat, row: int -> MockRow)
    ensures |RowsAfter(startIndex, n, row)| == n
    ensures forall k :: 0 <= k < n ==> RowsAfter(startIndex, n, row)[k] == row(startIndex + k + 1)
    decreases n
  {
    if n > 0 {
      RowsAfterAt(startIndex, n - 1, row);
    }
  }

  /** The loop of `generateMockData`: one row for each id after
      `startIndex`, while the page is not full and the data not exhausted;
      `row` builds a row from its id. */
  method AppendRows(startIndex: int, pageSize: int, total: int, row: int -> MockRow) returns (data: seq<MockRow>)
    ensures var n := Max(0, Min(pageSize, total - startIndex));
      data == RowsAfter(startIndex, n, row)
  {
    data := [];
    var i := 0;
    while i < pageSize && startIndex + i < total
      invariant 0 <= i <= Max(0, Min(pageSize, total - startIndex))
      invariant data == RowsAfter(startIndex, i, row)
    {
      var id := startIndex + i + 1;
      data := data + [row(id)];
      i := i + 1;
    }
  }

  /** `generateMockData`: the rows of one page and the total row count. */
  method GenerateMockData(page: int, pageSize: int) returns (data: seq<MockRow>, total: int)
    ensures total == Total
    ensures |data| == RowCount(StartIndex(page, pageSize), pageSize)
    ensures forall k :: 0 <= k < |data| ==> data[k] == MockRowFor(StartIndex(page, pageSize) + k + 1)
    ensures page >= 1 ==> forall k :: 0 <= k < |data| ==> 1 <= data[k].id <= total
    ensures forall k :: 0 <= k < |data| && data[k].id >= 0 ==>
      20 <= data[k].age <= 59 && data[k].city == Str(Cities[data[k].id % 8])
  {
    total := Total;
    var startIndex := StartIndex(page, pageSize);
    data := AppendRows(startIndex, pageSize, total, MockRowFor);
    assert Max(0, Min(pageSize, total - startIndex)) == RowCount(startIndex, pageSize);
    MockPageFacts(page, pageSize, data);
  }

  /** What a generated page holds: its size, its rows in id order, the id
      range from page 1 on, and the age and city of each row. */
  lemma MockPageFacts(page: int, pageSize: int, data: seq<MockRow>)
    requires data == RowsAfter(StartIndex(page, pageSize), RowCount(StartIndex(page, pageSize), pageSize), MockRowFor)
    ensures |data| == RowCount(StartIndex(page, pageSize), pageSize)
    ensures forall k :: 0 <= k < |data| ==> data[k] == MockRowFor(StartIndex(page, pageSize) + k + 1)
    ensures page >= 1 ==> forall k :: 0 <= k < |data| ==> 1 <= data[k].id <= Total
    ensures forall k :: 0 <= k < |data| && data[k].id >= 0 ==>
      20 <= data[k].age <= 59 && data[k].city == Str(Cities[data[k].id % 8])
  {
    RowsAfterAt(StartIndex(page, pageSize), RowCount(StartIndex(page, pageSize), pageSize), MockRowFor);
    MockPageIds(page, pageSize, data);
    MockRowsRanges(data);
  }

  /** From page 1 on, the ids of a generated page lie in [1, total]. */
  lemma MockPageIds(page: int, pageSize: int, data: seq<MockRow>)
    requires |data| == RowCount(StartIndex(page, pageSize), pageSize)
    requires forall k :: 0 <= k < |data| ==> data[k] == MockRowFor(StartIndex(page, pageSize) + k + 1)
    ensures page >= 1 ==> forall k :: 0 <= k < |data| ==> 1 <= data[k].id <= Total
  {
    if page >= 1 && |data| > 0 {
      StartIndexOfPositivePage(page, pageSize);
    }
  }

  /** Every generated row with a non-negative id has its age and city in range. */
  lemma MockRowsRanges(data: seq<MockRow>)
    requires forall k :: 0 <= k < |data| ==> data[k] == MockRowFor(data[k].id)
    ensures forall k :: 0 <= k < |data| && data[k].id >= 0 ==>
      20 <= data[k].age <= 59 && data[k].city == Str(Cities[data[k].id % 8])
  {
    forall k | 0 <= k < |data| && data[k].id >= 0
      ensures 20 <= data[k].age <= 59 && data[k].city == Str(Cities[data[k].id % 8])
    {
      MockRowRanges(data[k].id);
    }
  }

  /** A table column. */
  datatype Column = Column(title: string, dataIndex: string, key: string, width: int)

  const FieldLabels: map<string, string> :=
    map["id" := "ID", "name" := "姓名", "age" := "年龄", "email" := "邮箱", "city" := "城市"]

  /** The `convertToColumns` step: one column per field, in field order (no
      fields when the `fields` prop is unset). A column is titled by the
      field's label, or by the field name when it has none; it is 80 wide for
      `id`, 200 for `email` and 120 otherwise. */
  function ConvertToColumns(fields: Option<seq<string>>): (r: seq<Column>)
    ensures var fs := fields.GetOr([]);
      && |r| == |fs|
      && forall i :: 0 <= i < |r| ==>
        && r[i].dataIndex == fs[i] && r[i].key == fs[i]
        && (fs[i] in FieldLabels ==> r[i].title == FieldLabels[fs[i]])
        && (fs[i] !in FieldLabels ==> r[i].title == fs[i])
        && (r[i].width == 80 <==> fs[i] == "id")
        && (r[i].width == 200 <==> fs[i] == "email")
        && (r[i].width == 120 <==> fs[i] != "id" && fs[i] != "email")
  {
    var fs := fields.GetOr([]);
    seq(|fs|, i requires 0 <= i < |fs| =>
      var field := fs[i];
      Column(if field in FieldLabels then FieldLabels[field] else field, field, field,
             if field == "id" then 80 else if field == "email" then 200 else 120))
  }

  /** The `updatePagination` step: the previous pagination object (or `{}`)
      with `current` and `pageSize` taken from the event parameters when
      truthy, else from the previous pagination. */
  function UpdatePagination(params: Option<Record>, pagination: Option<Record>): (r: Record)
    ensures var p := params.GetOr(map[]); var prev := pagination.GetOr(map[]);
      && r.Keys == prev.Keys + {"current", "pageSize"}
      && (forall k :: k in prev && k != "current" && k != "pageSize" ==> r[k] == prev[k])
      && r["current"] == (if Truthy(Get(p, "current")) then Get(p, "current") else Get(prev, "current"))
      && r["pageSize"] == (if Truthy(Get(p, "pageSize")) then Get(p, "pageSize") else Get(prev, "pageSize"))
  {
    var p := params.GetOr(map[]);
    var prev := pagination.GetOr(map[]);
    prev["current" := Or(Get(p, "current"), Get(prev, "current"))]["pageSize" := Or(Get(p, "pageSize"), Get(prev, "pageSize"))]
  }

  /** Updating with truthy page and page size, then with no parameters, keeps
      the page and page size of the first update. */
  lemma UpdatePaginationKeepsPrevious(current: Value, pageSize: Value, pagination: Option<Record>)
    requires Truthy(current) && Truthy(pageSize)
    ensures var once := UpdatePagination(Some(map["current" := current, "pageSize" := pageSize]), pagination);
      var twice := UpdatePagination(None, Some(once));
      twice == once && once["current"] == current && once["pageSize"] == pageSize
  {
    var once := UpdatePagination(Some(map["current" := current, "pageSize" := pageSize]), pagination);
    var twice := UpdatePagination(None, Some(once));
    assert twice.Keys == once.Keys;
  }

  /** The pagination `fetchData` starts from when none is set. */
  const DefaultPagination: Record := map["current" := Num(1), "pageSize" := Num(10)]

  /** The `fetchData` step: generates the page that the pagination names and
      returns it with the pagination, its `total` replaced by the mock total.
      A `current` or `pageSize` that is not a number makes the page
      arithmetic NaN, so no row is generated. */
  method FetchData(pagination: Option<Record>) returns (rows: seq<MockRow>, next: Record)
    ensures var p := pagination.GetOr(DefaultPagination);
      && next == p["total" := Num(Total)]
      && next.Keys == p.Keys + {"total"}
      && (forall k :: k in p && k != "total" ==> next[k] == p[k])
    ensures var p := pagination.GetOr(DefaultPagination);
      var current := Get(p, "current"); var pageSize := Get(p, "pageSize");
      && (current.Num? && pageSize.Num? ==>
            && |rows| == RowCount(StartIndex(current.n, pageSize.n), pageSize.n)
            && forall k :: 0 <= k < |rows| ==> rows[k] == MockRowFor(StartIndex(current.n, pageSize.n) + k + 1))
      && (!(current.Num? && pageSize.Num?) ==> rows == [])
  {
    var p := if pagination.Some? then pagination.value else DefaultPagination;
    var current := Get(p, "current");
    var pageSize := Get(p, "pageSize");
    var total: int;
    if current.Num? && pageSize.Num? {
      rows, total := GenerateMockData(current.n, pageSize.n);
    } else {
      rows, total := [], Total;
    }
    next := p["total" := Num(total)];
  }
}
