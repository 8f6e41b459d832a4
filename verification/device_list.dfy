/** The device list page (frontend/src/app/device/page.tsx): the status
    labels, the filter form, and the CSV text built by the export button. */
module DeviceList {
  import opened Ui
  import opened Text

  /** One row of the device table. `status` is kept as the raw string that
      `getStatusText` and `getStatusColor` switch on. */
  datatype Device = Device(
    id: string,
    deviceName: string,
    model: string,
    location: string,
    installDate: string,
    status: string,
    lastUpdate: string,
    dataCount: int)

  /* ---------------------------------------------------------- status labels */

  const StatusNames: seq<string> := ["normal", "warning", "error"]

  /** `getStatusText`. */
  function StatusText(status: string): string
  {
    if status == "normal" then "정상"
    else if status == "warning" then "이상"
    else if status == "error" then "오류"
    else "알 수 없음"
  }

  /** Reads a label back; only the three known labels have a status. */
  function StatusOfText(shown: string): Option<string>
  {
    if shown == "정상" then Some("normal")
    else if shown == "이상" then Some("warning")
    else if shown == "오류" then Some("error")
    else None
  }

  /** Each known status has its own label, from which it can be recovered;
      every other status string gets the "unknown" label, which no known
      status shares. */
  lemma StatusTextDistinguishesStatuses(status: string)
    ensures status in StatusNames ==> StatusOfText(StatusText(status)) == Some(status)
    ensures status !in StatusNames <==> StatusText(status) == "알 수 없음"
    ensures StatusOfText(StatusText(status)).None? <==> status !in StatusNames
  {
  }

  /** `getStatusColor`: the Tailwind classes of the status badge. */
  function StatusColor(status: string): string
  {
    if status == "normal" then "text-green-600 bg-green-100"
    else if status == "warning" then "text-yellow-600 bg-yellow-100"
    else if status == "error" then "text-red-600 bg-red-100"
    else "text-gray-600 bg-gray-100"
  }

  /** Two statuses get the same badge classes exactly when they get the same
      label: both functions split status strings into the same four
      classes. */
  lemma StatusColorMatchesText(s1: string, s2: string)
    ensures StatusColor(s1) == StatusColor(s2) <==> StatusText(s1) == StatusText(s2)
  {
  }

  /* ---------------------------------------------------------------- filters */

  datatype Filters = Filters(deviceType: string, location: string, startDate: string, endDate: string)

  const EmptyFilters: Filters := Filters("", "", "", "")

  datatype FilterField = DeviceType | LocationFilter | StartDate | EndDate

  function FilterValue(f: Filters, field: FilterField): string
  {
    match field
    case DeviceType => f.deviceType
    case LocationFilter => f.location
    case StartDate => f.startDate
    case EndDate => f.endDate
  }

  /** `handleFilterChange(field, value)`: only the named filter changes. */
  function FilterChange(f: Filters, field: FilterField, value: string): (r: Filters)
    ensures FilterValue(r, field) == value
    ensures forall g :: g != field ==> FilterValue(r, g) == FilterValue(f, g)
  {
    match field
    case DeviceType => f.(deviceType := value)
    case LocationFilter => f.(location := value)
    case StartDate => f.(startDate := value)
    case EndDate => f.(endDate := value)
  }

  /** `handleReset`: every filter back to "". */
  function ResetFilters(f: Filters): (r: Filters)
    ensures forall g :: FilterValue(r, g) == ""
  {
    EmptyFilters
  }

  /** The rows the table renders: `devices.map(...)`, whatever the filters
      say — the filters are collected but never applied. */
  function VisibleDevices(devices: seq<Device>, f: Filters): seq<Device>
  {
    devices
  }

  /** The table shows the whole device list, in order, whatever the
      filters say. */
  lemma FiltersDoNotChangeTable(devices: seq<Device>, f1: Filters, f2: Filters)
    ensures VisibleDevices(devices, f1) == devices
    ensures VisibleDevices(devices, f1) == VisibleDevices(devices, f2) == VisibleDevices(devices, EmptyFilters)
  {
  }

  /* -------------------------------------------------------------- CSV text */

  const Bom: char := '\U{FEFF}'

  const Headers: seq<string> :=
    ["장비 ID", "장비명", "모델명", "설치 위치", "설치일", "상태", "마지막 데이터 수집", "데이터 건수"]

  const ColumnCount: nat := 8

  /** The eight cells of a device's CSV line, in column order; the count is
      printed as JavaScript prints a number. */
  function RowCells(d: Device): (cells: seq<string>)
    ensures |cells| == ColumnCount == |Headers|
  {
    [d.id, d.deviceName, d.model, d.location, d.installDate,
     StatusText(d.status), d.lastUpdate, IntToDecimal(d.dataCount)]
  }

  function HeaderLine(): string
  {
    Join(",", Headers)
  }

  function RowLine(d: Device): string
  {
    Join(",", RowCells(d))
  }

  function RowLines(devices: seq<Device>): (lines: seq<string>)
    ensures |lines| == |devices|
    ensures forall i :: 0 <= i < |devices| ==> lines[i] == RowLine(devices[i])
  {
    if |devices| == 0 then [] else [RowLine(devices[0])] + RowLines(devices[1..])
  }

  /** `csvContent`: the header line and one line per device, joined by
      newlines. */
  function CsvContent(devices: seq<Device>): string
  {
    Join("\n", [HeaderLine()] + RowLines(devices))
  }

  /** `csvWithBOM`: the text handed to the download. */
  function CsvWithBom(devices: seq<Device>): string
  {
    [Bom] + CsvContent(devices)
  }

  /** A cell that neither separator can split. */
  predicate Plain(cell: string)
  {
    ',' !in cell && '\n' !in cell
  }

  /** None of a device's own fields contains a comma or a line break. */
  predicate PlainFields(d: Device)
  {
    && Plain(d.id) && Plain(d.deviceName) && Plain(d.model)
    && Plain(d.location) && Plain(d.installDate) && Plain(d.lastUpdate)
  }

  /** No printed number contains a comma or a line break. */
  lemma PlainDecimal(n: int)
    ensures Plain(IntToDecimal(n))
  {
  }

  /** The header line splits back into the eight titles and has no line
      break. */
  lemma HeaderLineCells()
    ensures Split(HeaderLine(), ',') == Headers
    ensures '\n' !in HeaderLine()
  {
    var hs := Headers;
    assert Plain(hs[0]) && Plain(hs[1]) && Plain(hs[2]) && Plain(hs[3]);
    assert Plain(hs[4]) && Plain(hs[5]) && Plain(hs[6]) && Plain(hs[7]);
    PlainCellsLine(hs);
  }

  /** One or more cells without commas or line breaks, joined by commas, split back into
      themselves and give a line without a line break. */
  lemma PlainCellsLine(cells: seq<string>)
    requires |cells| >= 1
    requires forall i :: 0 <= i < |cells| ==> Plain(cells[i])
    ensures Split(Join(",", cells), ',') == cells
    ensures '\n' !in Join(",", cells)
  {
    SplitJoin(cells, ',');
    JoinAvoids(",", cells, '\n');
  }

  /** For plain fields a device's line splits back into its eight cells and
      has no line break. */
  lemma RowLineCells(d: Device)
    requires PlainFields(d)
    ensures Split(RowLine(d), ',') == RowCells(d)
    ensures '\n' !in RowLine(d)
  {
    var cells := RowCells(d);
    PlainDecimal(d.dataCount);
    assert Plain(StatusText(d.status));
    assert forall i :: 0 <= i < |cells| ==> Plain(cells[i]);
    PlainCellsLine(cells);
  }

  /** With plain fields, splitting the exported text (after the byte-order
      mark) at line breaks gives the header line and then, in list order,
      one line per device; each line splits at commas into exactly its
      eight cells. */
  lemma CsvLines(devices: seq<Device>)
    requires forall i :: 0 <= i < |devices| ==> PlainFields(devices[i])
    ensures CsvWithBom(devices)[0] == Bom
    ensures Split(CsvWithBom(devices)[1..], '\n') == [HeaderLine()] + RowLines(devices)
    ensures |Split(CsvWithBom(devices)[1..], '\n')| == |devices| + 1
    ensures Split(HeaderLine(), ',') == Headers
    ensures forall i :: 0 <= i < |devices| ==> Split(RowLines(devices)[i], ',') == RowCells(devices[i])
  {
    var rows := RowLines(devices);
    var lines := [HeaderLine()] + rows;
    HeaderLineCells();
    forall i | 0 <= i < |devices|
      ensures Split(rows[i], ',') == RowCells(devices[i])
      ensures '\n' !in rows[i]
    {
      RowLineCells(devices[i]);
    }
    forall i | 0 <= i < |lines|
      ensures '\n' !in lines[i]
    {
      if i > 0 {
        assert lines[i] == rows[i - 1];
      }
    }
    SplitJoin(lines, '\n');
  }

  /** The text opens with a single byte-order mark and then the header
      line, whether or not there are devices. */
  lemma CsvStartsWithHeader(devices: seq<Device>)
    ensures [Bom] + HeaderLine() <= CsvWithBom(devices)
    ensures CsvWithBom(devices)[1] != Bom
  {
  }

  /** Without quoting a comma inside a field becomes a column break: a
      device whose location holds one comma exports a line of nine cells,
      the location's two halves taking two of them. */
  lemma CommaInLocationAddsCell(d: Device, a: string, b: string)
    requires d.location == a + "," + b && Plain(a) && Plain(b)
    requires Plain(d.id) && Plain(d.deviceName) && Plain(d.model)
    requires Plain(d.installDate) && Plain(d.lastUpdate)
    ensures Split(RowLine(d), ',') ==
      [d.id, d.deviceName, d.model, a, b, d.installDate,
       StatusText(d.status), d.lastUpdate, IntToDecimal(d.dataCount)]
    ensures |Split(RowLine(d), ',')| == ColumnCount + 1
  {
    var pre := [d.id, d.deviceName, d.model];
    var rest := [d.installDate, StatusText(d.status), d.lastUpdate, IntToDecimal(d.dataCount)];
    assert RowCells(d) == pre + [a + "," + b] + rest;
    JoinPartWithSeparator(",", pre, a, b, rest);
    var cells := pre + [a, b] + rest;
    PlainDecimal(d.dataCount);
    assert Plain(StatusText(d.status));
    assert forall i :: 0 <= i < |cells| ==> Plain(cells[i]);
    SplitJoin(cells, ',');
  }

  /* ------------------------------------------------------------- the page */

  const SearchMessage: string := "검색 기능이 실행됩니다."
  const RegisterMessage: string := "디바이스 등록 페이지로 이동합니다."

  /** The controls of the page: the four filter inputs and the four
      buttons. */
  datatype Event =
    | ChangeFilter(field: FilterField, value: string)
    | ResetClicked      // "초기화"
    | RegisterClicked   // "디바이스 등록"
    | SearchClicked     // "검색"
    | ExportClicked     // "엑셀 다운로드"

  /** The page's only state is the filter form; the device list is a
      constant and is passed in. */
  datatype Transition = Transition(filters: Filters, effects: seq<Effect>)

  /** One event. The search and register buttons do not navigate and do
      not touch the filters: each shows one alert. The export button hands
      the CSV text to the download and also leaves the filters alone. */
  function Step(devices: seq<Device>, f: Filters, e: Event): (t: Transition)
    ensures NoNavigation(t.effects)
    ensures |t.effects| <= 1
    ensures e.SearchClicked? || e.RegisterClicked? || e.ExportClicked? ==> t.filters == f && |t.effects| == 1
    ensures e.SearchClicked? ==> t.effects == [Alert(SearchMessage)]
    ensures e.RegisterClicked? ==> t.effects == [Alert(RegisterMessage)]
    ensures e.ExportClicked? ==>
      && t.effects[0].Download?
      && |t.effects[0].content| >= 1 && t.effects[0].content[0] == Bom
      && t.effects[0].content[1..] == CsvContent(devices)
    ensures e.ChangeFilter? ==> t.filters == FilterChange(f, e.field, e.value) && t.effects == []
    ensures e.ResetClicked? ==> (forall g :: FilterValue(t.filters, g) == "") && t.effects == []
  {
    match e
    case ChangeFilter(field, value) => Transition(FilterChange(f, field, value), [])
    case ResetClicked => Transition(ResetFilters(f), [])
    case RegisterClicked => Transition(f, [Alert(RegisterMessage)])
    case SearchClicked => Transition(f, [Alert(SearchMessage)])
    case ExportClicked => Transition(f, [Download(CsvWithBom(devices))])
  }

  /** The filters after a sequence of events, and every effect in order. */
  function Run(devices: seq<Device>, f: Filters, events: seq<Event>): Transition
    decreases |events|
  {
    if |events| == 0 then Transition(f, [])
    else
      var t := Step(devices, f, events[0]);
      var rest := Run(devices, t.filters, events[1..]);
      Transition(rest.filters, t.effects + rest.effects)
  }

  /** Nothing on the device list page leaves it: whatever the user does,
      no effect is a navigation (the register button only alerts). */
  lemma {:induction false} RunNeverNavigates(devices: seq<Device>, f: Filters, events: seq<Event>)
    ensures NoNavigation(Run(devices, f, events).effects)
    ensures |Run(devices, f, events).effects| <= |events|
    decreases |events|
  {
    if |events| > 0 {
      var t := Step(devices, f, events[0]);
      RunNeverNavigates(devices, t.filters, events[1..]);
      var rest := Run(devices, t.filters, events[1..]);
      assert forall i :: 0 <= i < |t.effects + rest.effects| ==>
        (t.effects + rest.effects)[i] == if i < |t.effects| then t.effects[i] else rest.effects[i - |t.effects|];
    }
  }

  /** Pressing only the search, register and export buttons, in any order
      and any number of times, leaves the filter form as it was and gives
      exactly one effect per press. */
  lemma {:induction false} ButtonsKeepFilters(devices: seq<Device>, f: Filters, events: seq<Event>)
    requires forall i :: 0 <= i < |events| ==>
      events[i].SearchClicked? || events[i].RegisterClicked? || events[i].ExportClicked?
    ensures Run(devices, f, events).filters == f
    ensures |Run(devices, f, events).effects| == |events|
    decreases |events|
  {
    if |events| > 0 {
      ButtonsKeepFilters(devices, f, events[1..]);
    }
  }
}
