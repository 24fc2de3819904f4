/** The class `UserStats` of src/utils/user_stats.py: the object built from the lines of a
    child's `user_productions` log, the steps of its construction, and the queries the
    report is drawn from, each proved against the specification in `DailyStats`. */
module Stats {
  import opened Errors
  import opened PyStr
  import opened PyList
  import opened PyDict
  import opened Calendar
  import opened UserDates
  import opened DailyStats
  import opened Rounding

  // ---------------------------------------------------------------------------
  // daily_words_attempt_history, daily_word_attempt_history

  /** A tuple of `daily_words_attempt_history`: the header of column names, or a date, a
      word and that word's three counters on that date. */
  datatype Row = Header | WordRow(date: string, word: string, correct: nat, incorrect: nat, skipped: nat)

  /** The second field of a row, which `daily_word_attempt_history` compares with the
      target word: for the header it is the column name "word". */
  function RowWord(r: Row): string
  {
    match r
    case Header => "word"
    case WordRow(_, w, _, _, _) => w
  }

  /** The row of one word on one date. */
  function WordRowOf(date: string, word: string, ws: WordStat): Row
  {
    WordRow(date, word, ws.correct, ws.incorrect, ws.skipped)
  }

  /** The rows of the first `n` words of one date, in the date's word order. */
  function DayRows(date: string, byWord: Dict<string, WordStat>, n: nat): (r: seq<Row>)
    requires n <= |byWord.keys|
    ensures |r| == n
    ensures forall i :: 0 <= i < |r| ==> r[i].WordRow? && r[i].date == date
  {
    if n == 0 then []
    else
      var w := byWord.keys[n - 1];
      DayRows(date, byWord, n - 1) + [WordRowOf(date, w, byWord.Get(w, WordTemplate))]
  }

  /** The number of words of the first `n` dates, each date counted with its own words. */
  function WordRowCount(stats: Dict<string, DayStat>, n: nat): nat
    requires n <= |stats.keys|
  {
    if n == 0 then 0
    else WordRowCount(stats, n - 1) + |stats.Get(stats.keys[n - 1], DayTemplate).byWord.keys|
  }

  /** The rows of the first `n` dates of `daily_stats`, in date order. */
  function HistoryRows(stats: Dict<string, DayStat>, n: nat): (r: seq<Row>)
    requires n <= |stats.keys|
    ensures |r| == WordRowCount(stats, n)
    ensures forall i :: 0 <= i < |r| ==> r[i].WordRow?
  {
    if n == 0 then []
    else
      var d := stats.keys[n - 1];
      var byWord := stats.Get(d, DayTemplate).byWord;
      HistoryRows(stats, n - 1) + DayRows(d, byWord, |byWord.keys|)
  }

  /** What `daily_words_attempt_history` returns: the header, then a row per date and word. */
  function History(stats: Dict<string, DayStat>): (r: seq<Row>)
    ensures |r| >= 1 && r[0] == Header
    ensures |r| == 1 + WordRowCount(stats, |stats.keys|)
    ensures forall i :: 1 <= i < |r| ==> r[i].WordRow?
  {
    [Header] + HistoryRows(stats, |stats.keys|)
  }

  /** A row of one date is the row of one of its first `n` words. */
  lemma {:induction false} DayRowsMembers(date: string, byWord: Dict<string, WordStat>, n: nat, r: Row)
    requires byWord.Valid() && n <= |byWord.keys|
    ensures r in DayRows(date, byWord, n) <==>
      exists i :: 0 <= i < n && r == WordRowOf(date, byWord.keys[i], byWord.vals[byWord.keys[i]])
  {
    if n > 0 {
      DayRowsMembers(date, byWord, n - 1, r);
    }
  }

  /** Every row of the history but the header is a word of a date, with that word's
      counters on that date. */
  lemma {:induction false} HistoryRowCame(stats: Dict<string, DayStat>, n: nat, r: Row)
    requires StatsValid(stats) && n <= |stats.keys| && r in HistoryRows(stats, n)
    ensures r.WordRow? && r.date in stats.vals && r.word in stats.vals[r.date].byWord.vals
    ensures r == WordRowOf(r.date, r.word, stats.vals[r.date].byWord.vals[r.word])
  {
    var d := stats.keys[n - 1];
    var byWord := stats.vals[d].byWord;
    if r in HistoryRows(stats, n - 1) {
      HistoryRowCame(stats, n - 1, r);
    } else {
      DayRowsMembers(d, byWord, |byWord.keys|, r);
    }
  }

  /** Every word of every one of the first `n` dates has its row. */
  lemma {:induction false} HistoryHasRow(stats: Dict<string, DayStat>, n: nat, i: nat, w: string)
    requires StatsValid(stats) && i < n <= |stats.keys|
    requires w in stats.vals[stats.keys[i]].byWord.vals
    ensures WordRowOf(stats.keys[i], w, stats.vals[stats.keys[i]].byWord.vals[w]) in HistoryRows(stats, n)
  {
    if i < n - 1 {
      HistoryHasRow(stats, n - 1, i, w);
    } else {
      var byWord := stats.vals[stats.keys[i]].byWord;
      var j := byWord.Position(w);
      DayRowsMembers(stats.keys[i], byWord, |byWord.keys|, WordRowOf(stats.keys[i], w, byWord.vals[w]));
    }
  }

  /** The history holds the header and, for every date and every word attempted on it, the
      row of that word's counters on that date, and nothing else. */
  lemma HistoryMembers(stats: Dict<string, DayStat>, r: Row)
    requires StatsValid(stats)
    ensures r in History(stats) <==>
      || r == Header
      || (&& r.WordRow? && r.date in stats.vals && r.word in stats.vals[r.date].byWord.vals
          && r == WordRowOf(r.date, r.word, stats.vals[r.date].byWord.vals[r.word]))
  {
    var rows := HistoryRows(stats, |stats.keys|);
    if r in rows {
      HistoryRowCame(stats, |stats.keys|, r);
    }
    if r.WordRow? && r.date in stats.vals && r.word in stats.vals[r.date].byWord.vals {
      var i := stats.Position(r.date);
      HistoryHasRow(stats, |stats.keys|, i, r.word);
    }
  }

  /** The rows whose word is `target`, in their order. */
  function FilterWord(rows: seq<Row>, target: string): (r: seq<Row>)
    ensures |r| <= |rows|
    ensures forall i :: 0 <= i < |r| ==> RowWord(r[i]) == target
  {
    if rows == [] then []
    else
      var n := |rows| - 1;
      FilterWord(rows[..n], target) + (if RowWord(rows[n]) == target then [rows[n]] else [])
  }

  /** Filtering keeps exactly the rows with the target word. */
  lemma {:induction false} FilterWordMembers(rows: seq<Row>, target: string, r: Row)
    ensures r in FilterWord(rows, target) <==> r in rows && RowWord(r) == target
  {
    if rows != [] {
      var n := |rows| - 1;
      FilterWordMembers(rows[..n], target, r);
      assert rows == rows[..n] + [rows[n]];
    }
  }

  /** `daily_word_attempt_history(target)`: the rows of `target`, one for each date it was
      attempted on, with its counters on that date; the header comes along only for the
      target "word", its own column name. */
  lemma WordHistory(stats: Dict<string, DayStat>, target: string, r: Row)
    requires StatsValid(stats)
    ensures r in FilterWord(History(stats), target) <==>
      || (r == Header && target == "word")
      || (&& r.WordRow? && r.word == target && r.date in stats.vals && target in stats.vals[r.date].byWord.vals
          && r == WordRowOf(r.date, target, stats.vals[r.date].byWord.vals[target]))
  {
    FilterWordMembers(History(stats), target, r);
    HistoryMembers(stats, r);
  }

  // ---------------------------------------------------------------------------
  // get_all_words_list

  /** The words of the first `n` times of one date. */
  function LogWords(log: DayLog, n: nat): set<string>
    requires n <= |log.keys|
  {
    if n == 0 then {}
    else
      var t := log.keys[n - 1];
      LogWords(log, n - 1) + (if t in log.vals then {log.vals[t].word} else {})
  }

  /** The words of the first `n` dates of `daily_data`. */
  function DataWords(data: DailyData, n: nat): set<string>
    requires n <= |data.keys|
  {
    if n == 0 then {}
    else
      var d := data.keys[n - 1];
      var log := data.Get(d, Empty());
      DataWords(data, n - 1) + LogWords(log, |log.keys|)
  }

  /** The word of one of the first `n` times. */
  lemma {:induction false} LogWordsMembers(log: DayLog, n: nat, w: string)
    requires log.Valid() && n <= |log.keys|
    ensures w in LogWords(log, n) <==> exists i :: 0 <= i < n && log.vals[log.keys[i]].word == w
  {
    if n > 0 {
      LogWordsMembers(log, n - 1, w);
    }
  }

  /** A word of one of the first `n` dates comes from some time of it. */
  lemma {:induction false} DataWordCame(data: DailyData, n: nat, w: string) returns (d: string, t: string)
    requires DataValid(data) && n <= |data.keys| && w in DataWords(data, n)
    ensures d in data.vals && t in data.vals[d].vals && data.vals[d].vals[t].word == w
  {
    var last := data.keys[n - 1];
    var log := data.vals[last];
    if w in DataWords(data, n - 1) {
      d, t := DataWordCame(data, n - 1, w);
    } else {
      LogWordsMembers(log, |log.keys|, w);
      var i :| 0 <= i < |log.keys| && log.vals[log.keys[i]].word == w;
      d, t := last, log.keys[i];
    }
  }

  /** The word of every time of one of the first `n` dates is collected. */
  lemma {:induction false} DataHasWord(data: DailyData, n: nat, i: nat, t: string)
    requires DataValid(data) && i < n <= |data.keys| && t in data.vals[data.keys[i]].vals
    ensures data.vals[data.keys[i]].vals[t].word in DataWords(data, n)
  {
    if i < n - 1 {
      DataHasWord(data, n - 1, i, t);
      DataWordsGrow(data, n);
    } else {
      LastDateWords(data, n, t);
    }
  }

  lemma DataWordsGrow(data: DailyData, n: nat)
    requires 0 < n <= |data.keys|
    ensures DataWords(data, n - 1) <= DataWords(data, n)
  {
  }

  lemma LastDateWords(data: DailyData, n: nat, t: string)
    requires DataValid(data) && 0 < n <= |data.keys| && t in data.vals[data.keys[n - 1]].vals
    ensures data.vals[data.keys[n - 1]].vals[t].word in DataWords(data, n)
  {
    var log := data.vals[data.keys[n - 1]];
    assert data.Get(data.keys[n - 1], Empty()) == log;
    assert LogWords(log, |log.keys|) <= DataWords(data, n);
    var j := log.Position(t);
    LogHasWord(log, |log.keys|, j);
  }

  /** The word of every one of the first `n` times is collected. */
  lemma {:induction false} LogHasWord(log: DayLog, n: nat, j: nat)
    requires log.Valid() && j < n <= |log.keys|
    ensures log.vals[log.keys[j]].word in LogWords(log, n)
  {
    if j < n - 1 {
      LogHasWord(log, n - 1, j);
    }
  }

  /** At time `t` of date `d` the word `w` was attempted. */
  predicate WordAt(data: DailyData, d: string, t: string, w: string)
  {
    d in data.vals && t in data.vals[d].vals && data.vals[d].vals[t].word == w
  }

  /** The words collected are the words of the attempts recorded, on any date and time. */
  lemma AllWordsMembers(data: DailyData, w: string)
    requires DataValid(data)
    ensures w in DataWords(data, |data.keys|) <==> exists d, t :: WordAt(data, d, t, w)
  {
    if w in DataWords(data, |data.keys|) {
      var d, t := DataWordCame(data, |data.keys|, w);
      assert WordAt(data, d, t, w);
    }
    if exists d, t :: WordAt(data, d, t, w) {
      var d, t :| WordAt(data, d, t, w);
      AllWordsHas(data, d, t);
    }
  }

  /** One more date adds the words of its log. */
  lemma DataWordsStep(data: DailyData, i: nat)
    requires DataValid(data) && i < |data.keys|
    ensures data.keys[i] in data.vals && data.vals[data.keys[i]].Valid()
    ensures var log := data.vals[data.keys[i]];
      DataWords(data, i + 1) == DataWords(data, i) + LogWords(log, |log.keys|)
  {
    assert data.keys[i] in data.vals;
  }

  /** The words of all dates are exactly the words recorded at some date and time. */
  lemma AllWordsAre(data: DailyData)
    requires DataValid(data)
    ensures forall w :: w in DataWords(data, |data.keys|) <==> exists d, t :: WordAt(data, d, t, w)
  {
    forall w ensures w in DataWords(data, |data.keys|) <==> exists d, t :: WordAt(data, d, t, w) {
      AllWordsMembers(data, w);
    }
  }

  lemma AllWordsHas(data: DailyData, d: string, t: string)
    requires DataValid(data) && d in data.vals && t in data.vals[d].vals
    ensures data.vals[d].vals[t].word in DataWords(data, |data.keys|)
  {
    var i := data.Position(d);
    DataHasWord(data, |data.keys|, i, t);
  }

  // ---------------------------------------------------------------------------
  // create_table: the data it hands to `make_word_table`

  /** What the table shows for a word on a date: its three counters and its accuracy. */
  datatype Cells = Cells(correct: nat, incorrect: nat, skipped: nat, accuracyPc: int)

  /** The table: column header `DD/MM/YY` -> word -> cells. */
  type Table = Dict<string, Dict<string, Cells>>

  function CellsOf(ws: WordStat): Cells
  {
    Cells(ws.correct, ws.incorrect, ws.skipped, ws.accuracyPc)
  }

  /** The first `n` words of the column of an active date, in the date's word order. */
  function WordCells(byWord: Dict<string, WordStat>, n: nat): Dict<string, Cells>
    requires n <= |byWord.keys|
  {
    if n == 0 then Empty()
    else
      var w := byWord.keys[n - 1];
      WordCells(byWord, n - 1).Put(w, CellsOf(byWord.Get(w, WordTemplate)))
  }

  /** A word in the first `n` cells is one of the first `n` words. */
  lemma {:induction false} WordCellsCame(byWord: Dict<string, WordStat>, n: nat, w: string) returns (i: nat)
    requires n <= |byWord.keys| && w in WordCells(byWord, n).vals
    ensures i < n && byWord.keys[i] == w
  {
    if byWord.keys[n - 1] == w {
      i := n - 1;
    } else {
      i := WordCellsCame(byWord, n - 1, w);
    }
  }

  /** A word that is not among the first `n` has no cells there. */
  lemma WordCellsLacks(byWord: Dict<string, WordStat>, n: nat, w: string)
    requires n <= |byWord.keys| && forall i :: 0 <= i < n ==> byWord.keys[i] != w
    ensures w !in WordCells(byWord, n).vals
  {
    if w in WordCells(byWord, n).vals {
      var i := WordCellsCame(byWord, n, w);
    }
  }

  /** The next word has no cells yet. */
  lemma WordCellsLacksNext(byWord: Dict<string, WordStat>, n: nat)
    requires n < |byWord.keys| && Distinct(byWord.keys)
    ensures byWord.keys[n] !in WordCells(byWord, n).vals
  {
    assert forall i :: 0 <= i < n ==> byWord.keys[i] != byWord.keys[n];
    WordCellsLacks(byWord, n, byWord.keys[n]);
  }

  /** Each of the first `n` words has the cells of its counters. */
  lemma {:induction false} WordCellsHas(byWord: Dict<string, WordStat>, n: nat, i: nat)
    requires n <= |byWord.keys| && Distinct(byWord.keys) && i < n
    ensures byWord.keys[i] in WordCells(byWord, n).vals
    ensures WordCells(byWord, n).vals[byWord.keys[i]] == CellsOf(byWord.Get(byWord.keys[i], WordTemplate))
  {
    if i < n - 1 {
      WordCellsHas(byWord, n - 1, i);
      assert byWord.keys[n - 1] != byWord.keys[i];
    }
  }

  /** The cells list the first `n` words in their order. */
  lemma {:induction false} WordCellsKeys(byWord: Dict<string, WordStat>, n: nat)
    requires n <= |byWord.keys| && Distinct(byWord.keys)
    ensures WordCells(byWord, n).keys == byWord.keys[..n]
  {
    if n > 0 {
      var keys := byWord.keys;
      WordCellsKeys(byWord, n - 1);
      WordCellsLacksNext(byWord, n - 1);
      assert keys[..n] == keys[..n - 1] + [keys[n - 1]];
    }
  }

  /** The column of one date: the date's words when the user was active on it, and
      nothing otherwise. A listed date without statistics raises KeyError. */
  function Column(date: string, dateList: seq<string>, stats: Dict<string, DayStat>): Result<Dict<string, Cells>>
  {
    if date !in dateList then Success(Empty())
    else if date !in stats.vals then Failure(MissingKey)
    else
      var byWord := stats.vals[date].byWord;
      Success(WordCells(byWord, |byWord.keys|))
  }

  /** The first `n` columns, each under its header; a later header equal to an earlier one
      replaces its column. */
  function Columns(dates: seq<string>, headers: seq<string>, dateList: seq<string>, stats: Dict<string, DayStat>, n: nat):
    (r: Result<Table>)
    requires |headers| == |dates| && n <= |dates|
    ensures r.Failure? ==> r.error == MissingKey
  {
    if n == 0 then Success(Empty())
    else
      var t :- Columns(dates, headers, dateList, stats, n - 1);
      var c :- Column(dates[n - 1], dateList, stats);
      Success(t.Put(headers[n - 1], c))
  }

  /** `[datetime.strptime(date, "%d-%m-%Y").strftime("%d/%m/%y") for date in dates]` */
  function ShortDates(dates: seq<string>): (r: Result<seq<string>>)
    ensures r.Success? <==> forall i :: 0 <= i < |dates| ==> Strptime(dates[i], DashFull).Some?
    ensures r.Failure? ==> r.error == InvalidDate
    ensures r.Success? ==> |r.value| == |dates|
    ensures r.Success? ==> forall i :: 0 <= i < |dates| ==> r.value[i] == Strftime(Strptime(dates[i], DashFull).value, SlashShort)
  {
    if forall i :: 0 <= i < |dates| ==> Strptime(dates[i], DashFull).Some? then
      Success(seq(|dates|, i requires 0 <= i < |dates| => Strftime(Strptime(dates[i], DashFull).value, SlashShort)))
    else Failure(InvalidDate)
  }

  /** What `create_table(save_path, from_today, num_days)` draws, given the dates
      `get_ordered_dates` lists: the `num_days` days up to the starting date, oldest first,
      each a column headed `DD/MM/YY`. */
  function TableOf(stats: Dict<string, DayStat>, dateList: seq<string>, fromToday: bool, numDays: int, today: Date):
    (r: Result<Table>)
    requires IsValid(today)
    ensures r.Failure? ==>
      r.error == InvalidDate || r.error == EmptyDateList || r.error == DateOutOfRange || r.error == MissingKey
  {
    var fromDate :- GetFromDate(Some(dateList), fromToday, today);
    var dates :- DateArray(fromDate, numDays);
    var headers :- ShortDates(dates);
    Columns(dates, headers, dateList, stats, |dates|)
  }

  /** A `DD/MM/YY` header tells apart two days that differ in the day, the month or the
      last two digits of the year. */
  lemma HeadersDiffer(a: Date, b: Date)
    requires IsValid(a) && IsValid(b)
    requires a.day != b.day || a.month != b.month || a.year % 100 != b.year % 100
    ensures Strftime(a, SlashShort) != Strftime(b, SlashShort)
  {
    StrftimeFields(a, SlashShort);
    StrftimeFields(b, SlashShort);
    assert Pad2(a.day) == Pad2(b.day) ==> a.day == b.day;
    assert Pad2(a.month) == Pad2(b.month) ==> a.month == b.month;
    assert Pad2(a.year % 100) == Pad2(b.year % 100) ==> a.year % 100 == b.year % 100;
  }

  /** `TableOf` step by step. */
  lemma TableOfSteps(stats: Dict<string, DayStat>, dateList: seq<string>, fromToday: bool, numDays: int, today: Date)
    requires IsValid(today)
    ensures var fromDate := GetFromDate(Some(dateList), fromToday, today);
      TableOf(stats, dateList, fromToday, numDays, today) ==
      if fromDate.Failure? then Failure(fromDate.error)
      else if DateArray(fromDate.value, numDays).Failure? then Failure(DateArray(fromDate.value, numDays).error)
      else
        var dates := DateArray(fromDate.value, numDays).value;
        if ShortDates(dates).Failure? then Failure(ShortDates(dates).error)
        else Columns(dates, ShortDates(dates).value, dateList, stats, |dates|)
  {
  }

  /** The same day and month in a later year is at least 365 days per year later, less one. */
  lemma SameDayLater(a: Date, b: Date)
    requires IsValid(a) && IsValid(b)
    ensures a.day == b.day && a.month == b.month && a.year < b.year ==>
      Ordinal(b) - Ordinal(a) >= 365 * (b.year - a.year) - 1
  {
    if a.day == b.day && a.month == b.month && a.year < b.year {
      SameDayOtherYear(a, b);
    }
  }

  /** Two days less than 36499 days apart, a hundred years at the least, differ in the
      day, the month or the last two digits of the year. */
  lemma FieldsApart(a: Date, b: Date)
    requires IsValid(a) && IsValid(b) && Ordinal(a) < Ordinal(b) < Ordinal(a) + 36499
    ensures a.day != b.day || a.month != b.month || a.year % 100 != b.year % 100
  {
    SameDayLater(a, b);
    SameDayLater(b, a);
    var up, down := b.year - a.year, a.year - b.year;
    if a.year % 100 == b.year % 100 {
      SameLastDigits(a.year, b.year);
    }
    assert up >= 100 ==> 365 * up - 1 >= 36499;
    assert down >= 1 ==> 365 * down - 1 >= 364;
    assert a.day == b.day && a.month == b.month && a.year == b.year ==> a == b;
  }

  /** Two different years ending in the same two digits lie a hundred years apart at least. */
  lemma SameLastDigits(x: int, y: int)
    requires x % 100 == y % 100
    ensures x < y ==> y - x >= 100
  {
    var qx, qy := x / 100, y / 100;
    assert y - x == 100 * (qy - qx);
  }

  /** Two days less than 36499 days apart have different headers. */
  lemma HeadersApart(a: Date, b: Date)
    requires IsValid(a) && IsValid(b) && Ordinal(a) < Ordinal(b) < Ordinal(a) + 36499
    ensures Strftime(a, SlashShort) != Strftime(b, SlashShort)
  {
    FieldsApart(a, b);
    HeadersDiffer(a, b);
  }

  /** The headers of the listed days: each day's `DD/MM/YY`, and all different while the
      table spans fewer than 36500 days. */
  lemma WindowHeaders(fromDate: string, numDays: int)
    requires DateArray(fromDate, numDays).Success?
    ensures var dates := DateArray(fromDate, numDays).value;
      && ShortDates(dates).Success?
      && (numDays <= 36499 ==> Distinct(ShortDates(dates).value))
  {
    var anchor := Strptime(fromDate, DashFull).value;
    var n := if numDays < 0 then 0 else numDays;
    var w := Window(anchor, n);
    var dates := Map(Render, w);
    WindowRendered(w);
    var headers := ShortDates(dates).value;
    if numDays <= 36499 {
      forall i, j | 0 <= i < j < |headers| ensures headers[i] != headers[j] {
        assert headers[i] == Strftime(w[i], SlashShort) && headers[j] == Strftime(w[j], SlashShort);
        HeadersApart(w[i], w[j]);
      }
    }
  }

  /** With different headers, the columns are listed under the headers in order. */
  lemma {:induction false} ColumnsKeys(dates: seq<string>, headers: seq<string>, dateList: seq<string>,
                                       stats: Dict<string, DayStat>, n: nat)
    requires |headers| == |dates| && n <= |dates| && Distinct(headers)
    requires Columns(dates, headers, dateList, stats, n).Success?
    ensures Columns(dates, headers, dateList, stats, n).value.keys == headers[..n]
    ensures forall h :: h in Columns(dates, headers, dateList, stats, n).value.vals <==> h in headers[..n]
  {
    if n > 0 {
      ColumnsKeys(dates, headers, dateList, stats, n - 1);
      assert headers[n - 1] !in headers[..n - 1];
      assert headers[..n] == headers[..n - 1] + [headers[n - 1]];
    }
  }

  /** With different headers, each header heads the column of its own date. */
  lemma {:induction false} ColumnsAt(dates: seq<string>, headers: seq<string>, dateList: seq<string>,
                                     stats: Dict<string, DayStat>, n: nat, k: nat)
    requires |headers| == |dates| && k < n <= |dates| && Distinct(headers)
    requires Columns(dates, headers, dateList, stats, n).Success?
    ensures Column(dates[k], dateList, stats).Success?
    ensures headers[k] in Columns(dates, headers, dateList, stats, n).value.vals
    ensures Columns(dates, headers, dateList, stats, n).value.vals[headers[k]] == Column(dates[k], dateList, stats).value
  {
    if k < n - 1 {
      ColumnsAt(dates, headers, dateList, stats, n - 1, k);
    }
  }

  /** Once a column fails, so does every longer table. */
  lemma {:induction false} ColumnsFailStays(dates: seq<string>, headers: seq<string>, dateList: seq<string>,
                                            stats: Dict<string, DayStat>, m: nat, n: nat)
    requires |headers| == |dates| && m <= n <= |dates|
    requires Columns(dates, headers, dateList, stats, m).Failure?
    ensures Columns(dates, headers, dateList, stats, n) == Columns(dates, headers, dateList, stats, m)
  {
    if m < n {
      ColumnsFailStays(dates, headers, dateList, stats, m, n - 1);
    }
  }

  /** Building the columns fails exactly at a listed date without statistics. */
  lemma {:induction false} ColumnsFail(dates: seq<string>, headers: seq<string>, dateList: seq<string>,
                                       stats: Dict<string, DayStat>, n: nat)
    requires |headers| == |dates| && n <= |dates|
    ensures Columns(dates, headers, dateList, stats, n).Failure? <==>
      exists k :: 0 <= k < n && dates[k] in dateList && dates[k] !in stats.vals
    ensures Columns(dates, headers, dateList, stats, n).Failure? ==>
      Columns(dates, headers, dateList, stats, n).error == MissingKey
  {
    if n > 0 {
      ColumnsFail(dates, headers, dateList, stats, n - 1);
    }
  }

  /** Why `create_table` fails: the starting date cannot be found (a listed date that does
      not parse, or no dates at all), the days before it run out of the calendar, or a
      listed day of the table has no statistics. */
  lemma TableFailures(stats: Dict<string, DayStat>, dateList: seq<string>, fromToday: bool, numDays: int, today: Date)
    requires IsValid(today)
    ensures GetFromDate(Some(dateList), fromToday, today).Failure? ==>
      TableOf(stats, dateList, fromToday, numDays, today) == Failure(GetFromDate(Some(dateList), fromToday, today).error)
    ensures GetFromDate(Some(dateList), fromToday, today).Success? ==>
      var fromDate := GetFromDate(Some(dateList), fromToday, today).value;
      && (DateArray(fromDate, numDays).Failure? ==>
            TableOf(stats, dateList, fromToday, numDays, today) == Failure(DateArray(fromDate, numDays).error))
      && (DateArray(fromDate, numDays).Success? ==>
            var dates := DateArray(fromDate, numDays).value;
            && (TableOf(stats, dateList, fromToday, numDays, today).Failure? <==>
                  exists k :: 0 <= k < |dates| && dates[k] in dateList && dates[k] !in stats.vals)
            && (TableOf(stats, dateList, fromToday, numDays, today).Failure? ==>
                  TableOf(stats, dateList, fromToday, numDays, today).error == MissingKey))
  {
    var from := GetFromDate(Some(dateList), fromToday, today);
    if from.Success? && DateArray(from.value, numDays).Success? {
      var dates := DateArray(from.value, numDays).value;
      WindowHeaders(from.value, numDays);
      ColumnsFail(dates, ShortDates(dates).value, dateList, stats, |dates|);
    }
  }

  /** The column of a day: empty when the day is not listed, and otherwise each word of the
      day, in the day's word order, with its counters and accuracy on that day. */
  lemma ColumnShape(date: string, dateList: seq<string>, stats: Dict<string, DayStat>)
    requires StatsValid(stats) && Column(date, dateList, stats).Success?
    ensures var c := Column(date, dateList, stats).value;
      && (date !in dateList ==> c == Empty())
      && (date in dateList ==>
            && date in stats.vals
            && c.keys == stats.vals[date].byWord.keys
            && (forall w :: w in c.vals <==> w in stats.vals[date].byWord.vals)
            && forall w :: w in c.vals ==> c.vals[w] == CellsOf(stats.vals[date].byWord.vals[w]))
  {
    if date in dateList {
      var byWord := stats.vals[date].byWord;
      var n := |byWord.keys|;
      var c := WordCells(byWord, n);
      WordCellsKeys(byWord, n);
      assert byWord.keys[..n] == byWord.keys;
      forall w | w in c.vals ensures w in byWord.vals && c.vals[w] == CellsOf(byWord.vals[w]) {
        var i := WordCellsCame(byWord, n, w);
        WordCellsHas(byWord, n, i);
      }
      forall w | w in byWord.vals ensures w in c.vals {
        var i :| 0 <= i < n && byWord.keys[i] == w;
        WordCellsHas(byWord, n, i);
      }
    }
  }

  /** The table of a span of fewer than 36500 days: one column per day, oldest first and
      ending at the starting date, each headed by the day's `DD/MM/YY` and holding the
      column of that day. */
  lemma TableShape(stats: Dict<string, DayStat>, dateList: seq<string>, fromToday: bool, numDays: int, today: Date)
    requires IsValid(today) && numDays <= 36499
    requires TableOf(stats, dateList, fromToday, numDays, today).Success?
    ensures var fromDate := GetFromDate(Some(dateList), fromToday, today).value;
      var dates := DateArray(fromDate, numDays).value;
      var table := TableOf(stats, dateList, fromToday, numDays, today).value;
      && |table.keys| == |dates| == (if numDays < 0 then 0 else numDays)
      && (forall k :: 0 <= k < |dates| ==> IsNormalized(dates[k]))
      && (|dates| > 0 ==> Strptime(dates[|dates| - 1], DashFull) == Strptime(fromDate, DashFull))
      && (forall k :: 0 <= k < |dates| ==> table.keys[k] == Strftime(Strptime(dates[k], DashFull).value, SlashShort))
      && forall k :: 0 <= k < |dates| ==>
           && Column(dates[k], dateList, stats).Success?
           && table.keys[k] in table.vals
           && table.vals[table.keys[k]] == Column(dates[k], dateList, stats).value
  {
    var fromDate := GetFromDate(Some(dateList), fromToday, today).value;
    var dates := DateArray(fromDate, numDays).value;
    DateArrayEndsAtFromDate(fromDate, numDays);
    WindowHeaders(fromDate, numDays);
    var headers := ShortDates(dates).value;
    ColumnsKeys(dates, headers, dateList, stats, |dates|);
    assert headers[..|dates|] == headers;
    forall k | 0 <= k < |dates|
      ensures Column(dates[k], dateList, stats).Success?
      ensures headers[k] in Columns(dates, headers, dateList, stats, |dates|).value.vals
      ensures Columns(dates, headers, dateList, stats, |dates|).value.vals[headers[k]] == Column(dates[k], dateList, stats).value
    {
      ColumnsAt(dates, headers, dateList, stats, |dates|, k);
    }
  }

  /** When every listed date has its statistics, the table fails only when there is no
      starting date or no room in the calendar before it. */
  lemma TableWithStats(stats: Dict<string, DayStat>, dateList: seq<string>, fromToday: bool, numDays: int, today: Date)
    requires IsValid(today) && forall d :: d in dateList ==> d in stats.vals
    ensures TableOf(stats, dateList, fromToday, numDays, today).Failure? ==>
      TableOf(stats, dateList, fromToday, numDays, today).error != MissingKey
  {
    TableFailures(stats, dateList, fromToday, numDays, today);
  }

  /** For a constructed `UserStats` every date `get_ordered_dates` lists has its
      statistics, so `create_table` never raises KeyError. */
  lemma BuiltTable(lines: seq<string>, fromToday: bool, numDays: int, today: Date)
    requires IsValid(today) && Build(lines).Success?
    ensures var r := Build(lines).value;
      && SortDates(r.dailyData.keys).Success?
      && var dateList := SortDates(r.dailyData.keys).value;
         TableOf(r.dailyStats, dateList, fromToday, numDays, today).Failure? ==>
           TableOf(r.dailyStats, dateList, fromToday, numDays, today).error != MissingKey
  {
    var r := Build(lines).value;
    BuildReport(lines);
    OrderedDays(NonBlank(lines));
    var dateList := SortDates(r.dailyData.keys).value;
    assert forall d :: d in dateList ==> d in r.dailyStats.vals;
    TableWithStats(r.dailyStats, dateList, fromToday, numDays, today);
  }

  /** `get_ordered_dates(reversed=True)` lists the latest day first: each date is on or
      after every date that follows it. */
  lemma LatestFirst(dates: seq<string>)
    requires ParseAll(dates).Success?
    ensures var out := Reverse(SortDates(dates).value);
      && |out| == |dates|
      && (forall i :: 0 <= i < |out| ==> IsNormalized(out[i]))
      && forall i, j :: 0 <= i < j < |out| ==> Le(Strptime(out[j], DashFull).value, Strptime(out[i], DashFull).value)
  {
    SortDatesChronological(dates);
    var sorted := SortDates(dates).value;
    var out := Reverse(sorted);
    forall i, j | 0 <= i < j < |out|
      ensures Le(Strptime(out[j], DashFull).value, Strptime(out[i], DashFull).value)
    {
      var a, b := |sorted| - 1 - j, |sorted| - 1 - i;
      assert 0 <= a < b < |sorted|;
      assert Le(Strptime(sorted[a], DashFull).value, Strptime(sorted[b], DashFull).value);
    }
    forall i | 0 <= i < |out| ensures IsNormalized(out[i]) {
      assert out[i] == sorted[|sorted| - 1 - i];
    }
  }

  /** Python's order on strings is a total order. */
  lemma LexIsTotalPreorder()
    ensures IsTotalPreorder(LexLe)
  {
    forall a, b ensures LexLe(a, b) || LexLe(b, a) {
      LexTotal(a, b);
    }
    forall a, b, c | LexLe(a, b) && LexLe(b, c) ensures LexLe(a, c) {
      LexTransitive(a, b, c);
    }
  }

  /** Creating the date's dict when it is new, then filing the attempt in it, is `Record`. */
  lemma RecordInTwoSteps(data: DailyData, e: Entry)
    ensures var created := if e.date !in data.vals then data.Put(e.date, Empty()) else data;
      created.Put(e.date, created.vals[e.date].Put(e.time, e.attempt)) == Record(data, e)
  {
  }

  /** One more line that parses adds its entry to the parsed prefix. */
  lemma ParseOneMore(lines: seq<string>, i: nat, es: seq<Entry>, e: Entry)
    requires i < |lines| && ParseLines(lines[..i]) == Success(es) && ParseLine(lines[i]) == Success(e)
    ensures ParseLines(lines[..i + 1]) == Success(es + [e])
  {
    var pre, more, all := lines[..i], lines[..i + 1], es + [e];
    forall j | 0 <= j < i + 1
      ensures ParseLine(more[j]) == Success(all[j])
    {
      if j < i {
        assert more[j] == pre[j];
      }
    }
    var v := ParseLines(more).value;
    assert forall j :: 0 <= j < |v| ==> v[j] == all[j];
    assert v == all;
  }

  /** One more entry is recorded on top of the dict of the entries before it. */
  lemma GroupOneMore(es: seq<Entry>, e: Entry)
    ensures Group(es + [e]) == Record(Group(es), e)
  {
    assert (es + [e])[..|es|] == es;
  }

  /** Creating the word's entry when it is new, then storing its bumped counters, is `Tally`. */
  lemma TallyInSteps(byWord: Dict<string, WordStat>, a: Attempt)
    ensures var created := if a.word !in byWord.vals then byWord.Put(a.word, WordTemplate) else byWord;
      created.Put(a.word, Bump(created.vals[a.word], a.grade)) == Tally(byWord, a)
  {
  }

  /** One more attempt, counted. */
  lemma CountsStep(byWord: Dict<string, WordStat>, attempts: seq<Attempt>, a: Attempt)
    ensures var more := attempts + [a];
      && Count(more, Correct) == Count(attempts, Correct) + (if a.grade == Correct then 1 else 0)
      && Count(more, Incorrect) == Count(attempts, Incorrect) + (if a.grade == Incorrect then 1 else 0)
      && Count(more, Skipped) == Count(attempts, Skipped) + (if a.grade == Skipped then 1 else 0)
      && TallyAll(byWord, more) == Tally(TallyAll(byWord, attempts), a)
  {
    assert (attempts + [a])[..|attempts|] == attempts;
  }

  /** One turn of the loop of `get_daily_stats`. */
  lemma UpdateDaysStep(data: DailyData, stats: Dict<string, DayStat>, days: seq<string>)
    requires DataValid(data) && StatsValid(stats) && days != []
    ensures UpdateDays(data, stats, days) ==
      var o := DayUpdate(data, stats, days[0]);
      if o.error.Some? then o else UpdateDays(data, o.value, days[1..])
  {
  }

  // ---------------------------------------------------------------------------
  // The class

  class UserStats {
    var upContents: seq<string>
    var uid: string
    var dailyData: DailyData
    var dailyStats: Dict<string, DayStat>

    /** Every dict held is well formed. */
    ghost predicate Valid()
      reads this
    {
      DataValid(dailyData) && StatsValid(dailyStats)
    }

    /** The attributes as a value. */
    function State(): Report
      reads this
    {
      Report(upContents, uid, dailyData, dailyStats)
    }

    /** The first line of `__init__`: only the lines that are not blank are kept; the
        other attributes are filled in by the steps that follow. */
    constructor (lines: seq<string>)
      ensures Valid()
      ensures upContents == NonBlank(lines) && uid == "" && dailyData == Empty() && dailyStats == Empty()
    {
      upContents := NonBlank(lines);
      uid := "";
      dailyData := Empty();
      dailyStats := Empty();
    }

    /** `UserStats(up_contents)`: the construction and each of its steps, in order; the
        object exists once every step has got through, and then holds what `Build` says. */
    static method Create(lines: seq<string>) returns (r: Result<UserStats>)
      ensures Build(lines).Failure? ==> r == Failure(Build(lines).error)
      ensures Build(lines).Success? ==>
        r.Success? && fresh(r.value) && r.value.Valid() && r.value.State() == Build(lines).value
    {
      var s := new UserStats(lines);
      var u := s.GetUid();
      BuildStopsEarly(lines);
      if u.Failure? {
        return Failure(u.error);
      }
      s.uid := u.value;
      var err := s.LoadDays();
      if DailyDataOf(NonBlank(lines)).Success? {
        BuildFinishes(lines, u.value, s.dailyData);
      }
      if err.Some? {
        return Failure(err.value);
      }
      return Success(s);
    }

    /** The last three lines of `__init__`: group the lines, give every date a template
        and fill the templates in, stopping at the first step that raises. */
    method LoadDays() returns (err: Option<Error>)
      requires Valid() && dailyData == Empty() && dailyStats == Empty()
      modifies this
      ensures Valid() && upContents == old(upContents) && uid == old(uid)
      ensures DailyDataOf(upContents).Failure? ==> err == Some(DailyDataOf(upContents).error)
      ensures DailyDataOf(upContents).Success? ==>
        && dailyData == DailyDataOf(upContents).value
        && (SortDates(dailyData.keys).Failure? ==> err == Some(SortDates(dailyData.keys).error))
        && (SortDates(dailyData.keys).Success? ==>
              var o := UpdateDays(dailyData, InitialStats(dailyData), SortDates(dailyData.keys).value);
              dailyStats == o.value && err == o.error)
    {
      var d := GetDailyData();
      if d.Failure? {
        return Some(d.error);
      }
      dailyData := d.value;
      dailyStats := InitDailyStats();
      err := GetDailyStats();
    }

    /** `get_uid`: the set of first fields of the lines, which must hold exactly one uid.
        (The program prints the set and exits otherwise.) */
    method GetUid() returns (r: Result<string>)
      ensures r == Uid(upContents)
    {
      var uids: set<string> := {};
      for i := 0 to |upContents|
        invariant uids == UidSet(upContents[..i])
      {
        var line := upContents[i];
        if line != [] {
          uids := uids + {UidOf(line)};
        }
        assert upContents[..i + 1][..i] == upContents[..i];
      }
      assert upContents[..|upContents|] == upContents;
      if |uids| != 1 {
        return Failure(MultipleUids);
      }
      var u :| u in uids;
      Singleton(uids, u);
      return Success(u);
    }

    /** `get_daily_data`: every line split into its fields and its date and time, the date
        normalised, and the attempt filed under its date and time. */
    method GetDailyData() returns (r: Result<DailyData>)
      ensures r == DailyDataOf(upContents)
    {
      var data: DailyData := Empty();
      ghost var es: seq<Entry> := [];
      for i := 0 to |upContents|
        invariant ParseLines(upContents[..i]) == Success(es)
        invariant data == Group(es)
      {
        var e := ReadLine(upContents[i]);
        if e.Failure? {
          return Failure(e.error);
        }
        data := Store(data, e.value);
        ParseOneMore(upContents, i, es, e.value);
        GroupOneMore(es, e.value);
        es := es + [e.value];
      }
      assert upContents[..|upContents|] == upContents;
      return Success(data);
    }

    /** The unpacking at the head of the loop of `get_daily_data`: the line's four fields,
        the date and the time of its last field, and the date formatted. */
    static method ReadLine(line: string) returns (r: Result<Entry>)
      ensures r == ParseLine(line)
    {
      var fields := Split(line, ',');
      if |fields| != 4 {
        return Failure(WrongFieldCount);
      }
      var dateTime := Split(fields[3], ' ');
      if |dateTime| != 2 {
        return Failure(WrongFieldCount);
      }
      var date := FormatDate(dateTime[0]);
      return Success(Entry(date, dateTime[1], Attempt(fields[1], fields[2])));
    }

    /** `daily_data[date][time] = (word, grade)`, after creating the date's dict when the
        date is new. */
    static method Store(data: DailyData, e: Entry) returns (r: DailyData)
      ensures r == Record(data, e)
    {
      r := data;
      if e.date !in r.vals {
        r := r.Put(e.date, Empty());
      }
      r := r.Put(e.date, r.vals[e.date].Put(e.time, e.attempt));
      RecordInTwoSteps(data, e);
    }

    /** `init_daily_stats`: a fresh copy of the day template for every date. */
    method InitDailyStats() returns (r: Dict<string, DayStat>)
      requires dailyData.Valid()
      ensures r == InitialStats(dailyData)
    {
      r := Templates(dailyData.keys);
      assert forall d :: d in r.vals <==> d in dailyData.vals;
      assert r.vals == map d | d in dailyData.vals :: DayTemplate;
    }

    /** The loop of `init_daily_stats`: a fresh template for each day not seen yet. */
    static method Templates(days: seq<string>) returns (r: Dict<string, DayStat>)
      requires Distinct(days)
      ensures r.keys == days
      ensures forall d :: d in r.vals <==> d in days
      ensures forall d :: d in r.vals ==> r.vals[d] == DayTemplate
    {
      r := Empty();
      for i := 0 to |days|
        invariant r.keys == days[..i]
        invariant forall d :: d in r.vals <==> d in days[..i]
        invariant forall d :: d in r.vals ==> r.vals[d] == DayTemplate
      {
        assert days[i] !in days[..i];
        if days[i] !in r.vals {
          r := r.Put(days[i], DayTemplate);
        }
        assert days[..i + 1] == days[..i] + [days[i]];
      }
      assert days[..|days|] == days;
    }

    /** `get_daily_word_stats(day)`: count the day's attempts by grade and by word, store the
        totals, then fill in the day's accuracy and each word's. A day missing from either
        dict raises KeyError before anything changes; a division by zero leaves what was
        stored up to that point. */
    method GetDailyWordStats(day: string) returns (err: Option<Error>)
      requires Valid()
      modifies this
      ensures Valid()
      ensures upContents == old(upContents) && uid == old(uid) && dailyData == old(dailyData)
      ensures dailyStats == old(DayUpdate(dailyData, dailyStats, day)).value
      ensures err == old(DayUpdate(dailyData, dailyStats, day)).error
    {
      var o := ComputeDay(dailyData, dailyStats, day);
      dailyStats, err := o.value, o.error;
    }

    /** The computation of `get_daily_word_stats(day)` on the two dicts. */
    static method ComputeDay(data: DailyData, stats: Dict<string, DayStat>, day: string)
      returns (o: Outcome<Dict<string, DayStat>>)
      requires DataValid(data) && StatsValid(stats)
      ensures o == DayUpdate(data, stats, day)
    {
      if day !in data.vals || day !in stats.vals {
        return Outcome(stats, Some(MissingKey));
      }
      var attempts := data.vals[day].Values();
      var st := stats.vals[day];
      DayWordStatsSteps(st, attempts);
      var byWord, totalCorrect, totalIncorrect, totalSkipped := CountAttempts(st.byWord, attempts);
      var total := totalCorrect + totalIncorrect;
      var counted := DayStat(totalCorrect, totalIncorrect, totalSkipped, total, st.accuracyPc, byWord);
      var newDay, err := counted, Some(ZeroDivision);
      if total != 0 {
        var dayPc := Pc(totalCorrect, total);
        var scored := ScoreEachWord(byWord);
        newDay, err := counted.(accuracyPc := dayPc, byWord := scored.value), scored.error;
      }
      assert DayWordStats(st, attempts) == Outcome(newDay, err);
      return Outcome(stats.Put(day, newDay), err);
    }

    /** The first loop of `get_daily_word_stats`: over the day's attempts in time order, the
        word's entry is created from the template when it is new and the counter of the
        grade goes up, in the word's entry and in the day's totals. */
    static method CountAttempts(byWord0: Dict<string, WordStat>, attempts: seq<Attempt>)
      returns (byWord: Dict<string, WordStat>, totalCorrect: nat, totalIncorrect: nat, totalSkipped: nat)
      ensures byWord == TallyAll(byWord0, attempts)
      ensures totalCorrect == Count(attempts, Correct)
      ensures totalIncorrect == Count(attempts, Incorrect)
      ensures totalSkipped == Count(attempts, Skipped)
    {
      byWord := byWord0;
      var total := 0;
      totalCorrect, totalIncorrect, totalSkipped := 0, 0, 0;
      for i := 0 to |attempts|
        invariant byWord == TallyAll(byWord0, attempts[..i])
        invariant totalCorrect == Count(attempts[..i], Correct)
        invariant totalIncorrect == Count(attempts[..i], Incorrect)
        invariant totalSkipped == Count(attempts[..i], Skipped)
        invariant total == totalCorrect + totalIncorrect
      {
        var a := attempts[i];
        assert attempts[..i + 1] == attempts[..i] + [a];
        CountsStep(byWord0, attempts[..i], a);
        var dc, di, ds;
        byWord, dc, di, ds := CountOne(byWord, a);
        totalCorrect, totalIncorrect, totalSkipped := totalCorrect + dc, totalIncorrect + di, totalSkipped + ds;
        total := total + dc + di;
      }
      assert attempts[..|attempts|] == attempts;
    }

    /** One turn of the first loop of `get_daily_word_stats`: the word gets its template
        when it is new, then the counter of the attempt's grade goes up by one, for the word
        and for the day (a grade other than the three changes no counter). */
    static method CountOne(byWord: Dict<string, WordStat>, a: Attempt)
      returns (r: Dict<string, WordStat>, correct: nat, incorrect: nat, skipped: nat)
      ensures r == Tally(byWord, a)
      ensures correct == (if a.grade == Correct then 1 else 0)
      ensures incorrect == (if a.grade == Incorrect then 1 else 0)
      ensures skipped == (if a.grade == Skipped then 1 else 0)
    {
      TallyInSteps(byWord, a);
      r := byWord;
      if a.word !in r.vals {
        r := r.Put(a.word, WordTemplate);
      }
      ghost var created := r;
      var ws := r.vals[a.word];
      correct, incorrect, skipped := 0, 0, 0;
      if a.grade == Correct {
        correct := 1;
        ws := ws.(correct := ws.correct + 1);
      } else if a.grade == Incorrect {
        incorrect := 1;
        ws := ws.(incorrect := ws.incorrect + 1);
      } else if a.grade == Skipped {
        skipped := 1;
        ws := ws.(skipped := ws.skipped + 1);
      }
      assert ws == Bump(created.vals[a.word], a.grade);
      r := r.Put(a.word, ws);
    }

    /** The second loop of `get_daily_word_stats`: each word's accuracy, in dict order,
        until a word with no correct or incorrect attempt divides by zero. */
    static method ScoreEachWord(byWord: Dict<string, WordStat>) returns (o: Outcome<Dict<string, WordStat>>)
      ensures o == ScoreWords(byWord)
    {
      var keys := byWord.keys;
      var cur := byWord.vals;
      for j := 0 to |keys|
        invariant ScoreFrom(keys, byWord.vals) == ScoreFrom(keys[j..], cur)
      {
        var k := keys[j];
        assert keys[j..][1..] == keys[j + 1..];
        if k in cur {
          if cur[k].correct + cur[k].incorrect == 0 {
            return Outcome(Dict(keys, cur), Some(ZeroDivision));
          }
          cur := cur[k := Scored(cur[k])];
        }
      }
      return Outcome(Dict(keys, cur), None);
    }

    /** `get_daily_stats`: `get_daily_word_stats` for every date, in calendar order. Sorting
        the dates raises ValueError, leaving the statistics as they were, when one of them
        is not a `DD-MM-YYYY` date. */
    method GetDailyStats() returns (err: Option<Error>)
      requires Valid()
      modifies this
      ensures Valid()
      ensures upContents == old(upContents) && uid == old(uid) && dailyData == old(dailyData)
      ensures SortDates(dailyData.keys).Failure? ==> err == Some(InvalidDate) && dailyStats == old(dailyStats)
      ensures SortDates(dailyData.keys).Success? ==>
        && dailyStats == old(UpdateDays(dailyData, dailyStats, SortDates(dailyData.keys).value)).value
        && err == old(UpdateDays(dailyData, dailyStats, SortDates(dailyData.keys).value)).error
    {
      var dates := GetOrderedDates(false);
      if dates.Failure? {
        return Some(dates.error);
      }
      err := UpdateDaysInOrder(dates.value);
    }

    /** The loop of `get_daily_stats`: `get_daily_word_stats` for each of `days` in turn,
        up to the first that raises. */
    method UpdateDaysInOrder(days: seq<string>) returns (err: Option<Error>)
      requires Valid()
      modifies this
      ensures Valid()
      ensures upContents == old(upContents) && uid == old(uid) && dailyData == old(dailyData)
      ensures dailyStats == old(UpdateDays(dailyData, dailyStats, days)).value
      ensures err == old(UpdateDays(dailyData, dailyStats, days)).error
    {
      for i := 0 to |days|
        invariant Valid()
        invariant upContents == old(upContents) && uid == old(uid) && dailyData == old(dailyData)
        invariant old(UpdateDays(dailyData, dailyStats, days)) == UpdateDays(dailyData, dailyStats, days[i..])
      {
        assert days[i..][1..] == days[i + 1..];
        UpdateDaysStep(dailyData, dailyStats, days[i..]);
        err := GetDailyWordStats(days[i]);
        if err.Some? {
          return;
        }
      }
      return None;
    }

    /** `get_ordered_dates(reversed)`: the dates of `daily_data` sorted by calendar date,
        latest first when reversed. */
    method GetOrderedDates(reversed: bool) returns (r: Result<seq<string>>)
      ensures r.Failure? <==> SortDates(dailyData.keys).Failure?
      ensures r.Failure? ==> r.error == InvalidDate
      ensures r.Success? ==> r.value == if reversed then Reverse(SortDates(dailyData.keys).value) else SortDates(dailyData.keys).value
    {
      var ordered := SortDates(dailyData.keys);
      if ordered.Failure? {
        return ordered;
      }
      if reversed {
        return Success(Reverse(ordered.value));
      }
      return ordered;
    }

    /** `get_all_words_list`: every word attempted, on any date, each once and in Python's
        string order. */
    method GetAllWordsList() returns (r: seq<string>)
      requires Valid()
      ensures Sorted(r, LexLe) && Distinct(r)
      ensures forall w :: w in r <==> exists d, t :: WordAt(dailyData, d, t, w)
    {
      r := AllWordsOf(dailyData);
    }

    /** The body of `get_all_words_list` on the dict it reads. */
    static method AllWordsOf(data: DailyData) returns (r: seq<string>)
      requires DataValid(data)
      ensures Sorted(r, LexLe) && Distinct(r)
      ensures forall w :: w in r <==> exists d, t :: WordAt(data, d, t, w)
    {
      var words := CollectWords(data);
      r := SortedWords(words);
      AllWordsAre(data);
    }

    /** The outer loop of `get_all_words_list`: the words of every date, as a set. */
    static method CollectWords(data: DailyData) returns (words: set<string>)
      requires DataValid(data)
      ensures words == DataWords(data, |data.keys|)
    {
      words := {};
      var dates := data.keys;
      for i := 0 to |dates|
        invariant words == DataWords(data, i)
      {
        DataWordsStep(data, i);
        words := AddDayWords(words, data.vals[dates[i]]);
      }
    }

    /** The inner loop of `get_all_words_list`: `words.add(word)` for every time of one date. */
    static method AddDayWords(words: set<string>, log: DayLog) returns (r: set<string>)
      requires log.Valid()
      ensures r == words + LogWords(log, |log.keys|)
    {
      r := words;
      var times := log.keys;
      for j := 0 to |times|
        invariant r == words + LogWords(log, j)
      {
        r := r + {log.vals[times[j]].word};
      }
    }

    /** `sorted(words)` for a set of words. */
    static method SortedWords(words: set<string>) returns (r: seq<string>)
      ensures Sorted(r, LexLe) && Distinct(r)
      ensures forall w :: w in r <==> w in words
    {
      var listed: seq<string> := [];
      var rest := words;
      while rest != {}
        invariant rest <= words && Distinct(listed)
        invariant forall w :: w in listed <==> w in words && w !in rest
        decreases |rest|
      {
        var w :| w in rest;
        listed := listed + [w];
        rest := rest - {w};
      }
      LexIsTotalPreorder();
      r := Sort(listed, LexLe);
      DistinctPermutation(listed, r);
      forall w ensures w in r <==> w in listed {
        assert w in multiset(r) <==> w in multiset(listed);
      }
    }

    /** `daily_words_attempt_history`: the header, then for each date in `daily_stats`
        order and each of its words in order, the word's counters on that date. */
    method DailyWordsAttemptHistory() returns (rows: seq<Row>)
      ensures rows == History(dailyStats)
    {
      rows := [Header];
      var dates := dailyStats.keys;
      for i := 0 to |dates|
        invariant rows == [Header] + HistoryRows(dailyStats, i)
      {
        var byWord := dailyStats.Get(dates[i], DayTemplate).byWord;
        var words := byWord.keys;
        ghost var before := rows;
        for j := 0 to |words|
          invariant rows == before + DayRows(dates[i], byWord, j)
        {
          var ws := byWord.Get(words[j], WordTemplate);
          rows := rows + [WordRow(dates[i], words[j], ws.correct, ws.incorrect, ws.skipped)];
        }
      }
    }

    /** `daily_word_attempt_history(target_word)`: the rows of the history whose word is
        the target, in order. */
    method DailyWordAttemptHistory(targetWord: string) returns (rows: seq<Row>)
      ensures rows == FilterWord(History(dailyStats), targetWord)
    {
      var history := DailyWordsAttemptHistory();
      rows := [];
      for i := 0 to |history|
        invariant rows == FilterWord(history[..i], targetWord)
      {
        if RowWord(history[i]) == targetWord {
          rows := rows + [history[i]];
        }
        assert history[..i + 1][..i] == history[..i];
      }
      assert history[..|history|] == history;
    }

    /** The data of `create_table(save_path, from_today, num_days)`, given today's date:
        the ordered dates, the starting date, the days up to it and their headers, then a
        column per day. Drawing the table and saving it are not part of this model. */
    method CreateTable(fromToday: bool, numDays: int, today: Date) returns (r: Result<Table>)
      requires StatsValid(dailyStats) && IsValid(today)
      ensures r == match SortDates(dailyData.keys)
        case Failure(e) => Failure(e)
        case Success(dateList) => TableOf(dailyStats, dateList, fromToday, numDays, today)
    {
      var ordered := GetOrderedDates(false);
      if ordered.Failure? {
        return Failure(ordered.error);
      }
      r := BuildTable(dailyStats, ordered.value, fromToday, numDays, today);
    }

    /** The body of `create_table` once the dates are ordered. */
    static method BuildTable(stats: Dict<string, DayStat>, dateList: seq<string>, fromToday: bool, numDays: int, today: Date)
      returns (r: Result<Table>)
      requires StatsValid(stats) && IsValid(today)
      ensures r == TableOf(stats, dateList, fromToday, numDays, today)
    {
      TableOfSteps(stats, dateList, fromToday, numDays, today);
      var fromDate := GetFromDate(Some(dateList), fromToday, today);
      if fromDate.Failure? {
        return Failure(fromDate.error);
      }
      var columns := GenerateDateArray(fromDate.value, numDays);
      if columns.Failure? {
        return Failure(columns.error);
      }
      var dates := columns.value;
      var formatted := ShortDates(dates);
      if formatted.Failure? {
        return Failure(formatted.error);
      }
      var headers := formatted.value;
      var data: Table := Empty();
      for i := 0 to |dates|
        invariant Columns(dates, headers, dateList, stats, i) == Success(data)
      {
        var column := FillColumn(dates[i], dateList, stats);
        if column.Failure? {
          ColumnsFailStays(dates, headers, dateList, stats, i + 1, |dates|);
          return Failure(column.error);
        }
        data := data.Put(headers[i], column.value);
      }
      return Success(data);
    }

    /** One turn of the loop of `create_table`: `data[f_date] = {}`, then for a listed date
        a word's cells for each of its words. (The table is discarded when a listed date
        has no statistics.) */
    static method FillColumn(date: string, dateList: seq<string>, stats: Dict<string, DayStat>)
      returns (r: Result<Dict<string, Cells>>)
      requires StatsValid(stats)
      ensures r == Column(date, dateList, stats)
    {
      var cells: Dict<string, Cells> := Empty();
      if date in dateList {
        if date !in stats.vals {
          return Failure(MissingKey);
        }
        var byWord := stats.vals[date].byWord;
        for j := 0 to |byWord.keys|
          invariant cells == WordCells(byWord, j)
        {
          var w := byWord.keys[j];
          cells := cells.Put(w, CellsOf(byWord.vals[w]));
        }
      }
      return Success(cells);
    }
  }
}
