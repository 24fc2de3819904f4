/** The helpers of build/lib/utils/plotting.py that prepare the numbers of the accuracy bar
    chart: the counts per day of a fixed window, their percentages, and the axis labels. */
module Plotting {
  import opened Errors
  import opened PyStr
  import opened PyList
  import opened PyDict
  import opened Calendar
  import opened UserDates
  import opened Rounding
  import opened DailyStats
  import Stats

  /** `build_stacks` calls `generate_date_array` without a length: its default. */
  const StackDays := 14

  /** The three lists `build_stacks` returns. */
  datatype Stacks = Stacks(dates: seq<string>, correct: seq<nat>, incorrect: seq<nat>)

  /** `active_dates.get(date, {"words_correct": 0, "words_incorrect": 0})["words_correct"]` */
  function CorrectOn(active: Dict<string, DayStat>, date: string): (r: nat)
    ensures r == active.Get(date, DayTemplate).wordsCorrect
    ensures date !in active.vals ==> r == 0
  {
    if date in active.vals then active.vals[date].wordsCorrect else 0
  }

  /** The same for `words_incorrect`. */
  function IncorrectOn(active: Dict<string, DayStat>, date: string): (r: nat)
    ensures r == active.Get(date, DayTemplate).wordsIncorrect
    ensures date !in active.vals ==> r == 0
  {
    if date in active.vals then active.vals[date].wordsIncorrect else 0
  }

  /** `build_stacks(active_dates, from_today)`: the 14 days up to the starting date chosen
      among the active dates, oldest first, with the day's correct and incorrect counts, and
      zeros for a day the child was not active on, so no day is skipped. */
  method BuildStacks(active: Dict<string, DayStat>, fromToday: bool, today: Date) returns (r: Result<Stacks>)
    requires IsValid(today)
    ensures GetFromDate(Some(active.keys), fromToday, today).Failure? ==>
      r == Failure(GetFromDate(Some(active.keys), fromToday, today).error)
    ensures GetFromDate(Some(active.keys), fromToday, today).Success? ==>
      var fromDate := GetFromDate(Some(active.keys), fromToday, today).value;
      && (DateArray(fromDate, StackDays).Failure? ==> r == Failure(DateArray(fromDate, StackDays).error))
      && (DateArray(fromDate, StackDays).Success? ==>
            && r.Success?
            && r.value.dates == DateArray(fromDate, StackDays).value
            && |r.value.dates| == |r.value.correct| == |r.value.incorrect| == StackDays
            && forall i :: 0 <= i < StackDays ==>
                 && r.value.correct[i] == CorrectOn(active, r.value.dates[i])
                 && r.value.incorrect[i] == IncorrectOn(active, r.value.dates[i]))
  {
    var fromDate := GetFromDate(Some(active.keys), fromToday, today);
    if fromDate.Failure? {
      return Failure(fromDate.error);
    }
    var window := GenerateDateArray(fromDate.value, StackDays);
    if window.Failure? {
      return Failure(window.error);
    }
    var wordsCorrect, wordsIncorrect := CountsOn(active, window.value);
    DateArrayEndsAtFromDate(fromDate.value, StackDays);
    return Success(Stacks(window.value, wordsCorrect, wordsIncorrect));
  }

  /** The loop of `build_stacks`: each listed day's counts, zeros for a day not in
      `active`. */
  method CountsOn(active: Dict<string, DayStat>, dateList: seq<string>) returns (wordsCorrect: seq<nat>, wordsIncorrect: seq<nat>)
    ensures |wordsCorrect| == |wordsIncorrect| == |dateList|
    ensures forall k :: 0 <= k < |dateList| ==>
      wordsCorrect[k] == CorrectOn(active, dateList[k]) && wordsIncorrect[k] == IncorrectOn(active, dateList[k])
  {
    wordsCorrect, wordsIncorrect := [], [];
    for i := 0 to |dateList|
      invariant |wordsCorrect| == |wordsIncorrect| == i
      invariant forall k :: 0 <= k < i ==>
        wordsCorrect[k] == CorrectOn(active, dateList[k]) && wordsIncorrect[k] == IncorrectOn(active, dateList[k])
    {
      var date := dateList[i];
      var correct, incorrect := 0, 0;
      if date in active.vals {
        correct, incorrect := active.vals[date].wordsCorrect, active.vals[date].wordsIncorrect;
      }
      wordsCorrect := wordsCorrect + [correct];
      wordsIncorrect := wordsIncorrect + [incorrect];
    }
  }

  /** `get_words_pc(words_correct, words_incorrect)`: for each day of the shorter list, the
      percentages of correct and of incorrect attempts, both 0 on a day without any. They
      are percentages, and on a day with attempts they add up to 100. */
  method GetWordsPc(wordsCorrect: seq<nat>, wordsIncorrect: seq<nat>) returns (correctPc: seq<int>, incorrectPc: seq<int>)
    ensures |correctPc| == |incorrectPc| == if |wordsCorrect| < |wordsIncorrect| then |wordsCorrect| else |wordsIncorrect|
    ensures forall k :: 0 <= k < |correctPc| ==>
      var total := wordsCorrect[k] + wordsIncorrect[k];
      && (total == 0 ==> correctPc[k] == 0 && incorrectPc[k] == 0)
      && (total > 0 ==> correctPc[k] == Pc(wordsCorrect[k], total) && incorrectPc[k] == Pc(wordsIncorrect[k], total))
      && (total > 0 ==> correctPc[k] + incorrectPc[k] == 100)
      && 0 <= correctPc[k] <= 100 && 0 <= incorrectPc[k] <= 100
  {
    var n := if |wordsCorrect| < |wordsIncorrect| then |wordsCorrect| else |wordsIncorrect|;
    correctPc, incorrectPc := [], [];
    for k := 0 to n
      invariant |correctPc| == |incorrectPc| == k
      invariant forall j :: 0 <= j < k ==>
        var total := wordsCorrect[j] + wordsIncorrect[j];
        && (total == 0 ==> correctPc[j] == 0 && incorrectPc[j] == 0)
        && (total > 0 ==> correctPc[j] == Pc(wordsCorrect[j], total) && incorrectPc[j] == Pc(wordsIncorrect[j], total))
        && (total > 0 ==> correctPc[j] + incorrectPc[j] == 100)
        && 0 <= correctPc[j] <= 100 && 0 <= incorrectPc[j] <= 100
    {
      var wordCorrect, wordIncorrect := wordsCorrect[k], wordsIncorrect[k];
      var totalWords := wordCorrect + wordIncorrect;
      var c, i := 0, 0;
      if totalWords > 0 {
        c, i := Pc(wordCorrect, totalWords), Pc(wordIncorrect, totalWords);
        PcBounds(wordCorrect, totalWords);
        PcBounds(wordIncorrect, totalWords);
        PcComplement(wordCorrect, wordIncorrect);
      }
      correctPc, incorrectPc := correctPc + [c], incorrectPc + [i];
    }
  }

  /** `f"{day}/{month}/{year[2:4]}"` for the three fields of `date.split("-")`. */
  function PlotLabel(fields: seq<string>): (r: string)
    requires |fields| == 3
    ensures |fields[0]| + |fields[1]| + 2 <= |r| <= |fields[0]| + |fields[1]| + 4
    ensures (forall i :: 0 <= i < 3 ==> '/' !in fields[i]) ==>
      Split(r, '/') == [fields[0], fields[1], Slice(fields[2], 2, 4)]
  {
    var parts := [fields[0], fields[1], Slice(fields[2], 2, 4)];
    var text := fields[0] + "/" + fields[1] + "/" + Slice(fields[2], 2, 4);
    if forall i :: 0 <= i < 3 ==> '/' !in fields[i] then
      assert parts[1..][1..] == [parts[2]];
      assert Join(parts[1..], '/') == parts[1] + "/" + parts[2];
      assert Join(parts, '/') == text;
      assert forall c :: c in parts[2] ==> c in fields[2];
      JoinSplit(parts, '/');
      text
    else text
  }

  /** `format_date_list_for_plotting(date_list)`: each `DD-MM-YYYY` date as `DD/MM/YY`, in
      order; a date that does not split into three fields at '-' raises ValueError. */
  method FormatDateListForPlotting(dateList: seq<string>) returns (r: Result<seq<string>>)
    ensures r.Success? <==> forall k :: 0 <= k < |dateList| ==> |Split(dateList[k], '-')| == 3
    ensures r.Failure? ==> r.error == WrongFieldCount
    ensures r.Success? ==> |r.value| == |dateList|
    ensures r.Success? ==> forall k :: 0 <= k < |dateList| ==> r.value[k] == PlotLabel(Split(dateList[k], '-'))
  {
    var formatted := [];
    for k := 0 to |dateList|
      invariant |formatted| == k
      invariant forall j :: 0 <= j < k ==> |Split(dateList[j], '-')| == 3 && formatted[j] == PlotLabel(Split(dateList[j], '-'))
    {
      var fields := Split(dateList[k], '-');
      if |fields| != 3 {
        return Failure(WrongFieldCount);
      }
      formatted := formatted + [fields[0] + "/" + fields[1] + "/" + Slice(fields[2], 2, 4)];
    }
    return Success(formatted);
  }

  /** The label of a date in normal form is its `%d/%m/%y` rendering, the header the word
      table gives the same day. */
  lemma PlotLabelIsShortDate(d: Date)
    requires IsValid(d)
    ensures |Split(Render(d), '-')| == 3
    ensures PlotLabel(Split(Render(d), '-')) == Strftime(d, SlashShort)
  {
    StrftimeFields(d, DashFull);
    var y := Pad4(d.year);
    assert y == Pad2(d.year / 100) + Pad2(d.year % 100);
    assert Slice(y, 2, 4) == Pad2(d.year % 100);
  }

  /** The labels of a window of days are the headers of the word table for those days. */
  lemma WindowLabels(fromDate: string, numDays: int)
    requires DateArray(fromDate, numDays).Success?
    ensures var dates := DateArray(fromDate, numDays).value;
      && (forall k :: 0 <= k < |dates| ==> |Split(dates[k], '-')| == 3)
      && Stats.ShortDates(dates).Success?
      && forall k :: 0 <= k < |dates| ==> PlotLabel(Split(dates[k], '-')) == Stats.ShortDates(dates).value[k]
  {
    var dates := DateArray(fromDate, numDays).value;
    DateArrayEndsAtFromDate(fromDate, numDays);
    forall k | 0 <= k < |dates|
      ensures |Split(dates[k], '-')| == 3 && PlotLabel(Split(dates[k], '-')) == Strftime(Strptime(dates[k], DashFull).value, SlashShort)
    {
      var d := Strptime(dates[k], DashFull).value;
      assert dates[k] == Render(d);
      PlotLabelIsShortDate(d);
    }
  }
}
