/** The data of `UserStats` (src/utils/user_stats.py) as values, and the specification of
    what each of its steps computes: the non-blank log lines, the set of uids, the
    `date -> time -> (word, grade)` grouping, and the per-day and per-word counters with
    their accuracy percentages. The class `Stats.UserStats` is proved against these. */
module DailyStats {
  import opened Errors
  import opened PyStr
  import opened PyDict
  import opened UserDates
  import opened Rounding
  import opened PyList

  /** The grade codes of a log line. */
  const Correct := "1"
  const Incorrect := "0"
  const Skipped := "2"

  predicate IsGradeCode(g: string)
  {
    g == Correct || g == Incorrect || g == Skipped
  }

  /** `(word, grade)`, what `daily_data[date][time]` holds. */
  datatype Attempt = Attempt(word: string, grade: string)

  /** One log line `uid,word,grade,date time`, with its date normalised by `format_date`. */
  datatype Entry = Entry(date: string, time: string, attempt: Attempt)

  /** `daily_data[date]`: time -> attempt. */
  type DayLog = Dict<string, Attempt>

  /** `daily_data`: date -> time -> attempt. */
  type DailyData = Dict<string, DayLog>

  /** `daily_stats[day]["by_word"][word]`, the accuracy as a whole percentage. */
  datatype WordStat = WordStat(correct: nat, incorrect: nat, skipped: nat, accuracyPc: int)

  /** `daily_stats[day]`. */
  datatype DayStat = DayStat(
    wordsCorrect: nat, wordsIncorrect: nat, wordsSkipped: nat, wordsTotal: nat,
    accuracyPc: int, byWord: Dict<string, WordStat>)

  /** `word_daily_stat_template` and `daily_stat_template`. */
  const WordTemplate := WordStat(0, 0, 0, 0)
  const DayTemplate := DayStat(0, 0, 0, 0, 0, Empty())

  ghost predicate DataValid(data: DailyData)
  {
    data.Valid() && forall d :: d in data.vals ==> data.vals[d].Valid()
  }

  ghost predicate StatsValid(stats: Dict<string, DayStat>)
  {
    stats.Valid() && forall d :: d in stats.vals ==> stats.vals[d].byWord.Valid()
  }

  // ---------------------------------------------------------------------------
  // The log lines and the uid

  /** `[element for element in up_contents if element.strip()]` */
  function NonBlank(lines: seq<string>): (r: seq<string>)
    ensures |r| <= |lines|
    ensures forall i :: 0 <= i < |r| ==> !IsBlank(r[i])
  {
    if lines == [] then []
    else Kept(lines[0]) + NonBlank(lines[1..])
  }

  /** `[line]` when `line.strip()` is not empty, `[]` otherwise. */
  function Kept(line: string): (r: seq<string>)
    ensures r == (if IsBlank(line) then [] else [line])
  {
    if Strip(line) != [] then [line] else []
  }

  /** The kept lines are exactly the lines that are not blank. */
  lemma {:induction false} NonBlankMembers(lines: seq<string>, x: string)
    ensures x in NonBlank(lines) <==> x in lines && !IsBlank(x)
  {
    if lines != [] {
      NonBlankMembers(lines[1..], x);
      assert lines == [lines[0]] + lines[1..];
    }
  }

  /** Filtering works line by line, so it keeps the original order. */
  lemma {:induction false} NonBlankAppend(a: seq<string>, b: seq<string>)
    ensures NonBlank(a + b) == NonBlank(a) + NonBlank(b)
  {
    if a == [] {
      assert a + b == b;
    } else {
      assert (a + b)[0] == a[0];
      assert (a + b)[1..] == a[1..] + b;
      NonBlankAppend(a[1..], b);
    }
  }

  /** Lines that are all non-blank are kept as they are. */
  lemma {:induction false} NonBlankKeepsAll(lines: seq<string>)
    requires forall i :: 0 <= i < |lines| ==> !IsBlank(lines[i])
    ensures NonBlank(lines) == lines
  {
    if lines != [] {
      NonBlankKeepsAll(lines[1..]);
    }
  }

  /** `line.split(",")[0].strip()` */
  function UidOf(line: string): string
  {
    Strip(Split(line, ',')[0])
  }

  /** `{f(line) for line in lines if line}`, built line by line. */
  function Collected(lines: seq<string>, f: string -> string): set<string>
  {
    if lines == [] then {}
    else
      var last := lines[|lines| - 1];
      Collected(lines[..|lines| - 1], f) + (if last != [] then {f(last)} else {})
  }

  /** The line a collected value comes from. */
  lemma {:induction false} CollectedCame(lines: seq<string>, f: string -> string, u: string) returns (i: nat)
    requires u in Collected(lines, f)
    ensures i < |lines| && lines[i] != [] && f(lines[i]) == u
  {
    var n := |lines| - 1;
    var init := lines[..n];
    if u in Collected(init, f) {
      i := CollectedCame(init, f, u);
      assert lines[i] == init[i];
    } else {
      i := n;
    }
  }

  /** Every non-empty line contributes its value. */
  lemma {:induction false} CollectedHas(lines: seq<string>, f: string -> string, i: nat)
    requires i < |lines| && lines[i] != []
    ensures f(lines[i]) in Collected(lines, f)
  {
    var n := |lines| - 1;
    if i < n {
      CollectedHas(lines[..n], f, i);
      assert lines[..n][i] == lines[i];
    }
  }

  /** The uids `get_uid` collects: the first field of every non-empty line. */
  function UidSet(lines: seq<string>): set<string>
  {
    Collected(lines, UidOf)
  }

  /** A uid is collected exactly when some non-empty line carries it. */
  lemma UidSetMembers(lines: seq<string>, u: string)
    ensures u in UidSet(lines) <==> exists i :: 0 <= i < |lines| && lines[i] != [] && UidOf(lines[i]) == u
  {
    if u in UidSet(lines) {
      var i := CollectedCame(lines, UidOf, u);
    }
    forall i | 0 <= i < |lines| && lines[i] != [] && UidOf(lines[i]) == u
      ensures u in UidSet(lines)
    {
      CollectedHas(lines, UidOf, i);
    }
  }

  /** A set of one element holds that element only. */
  lemma Singleton<T>(s: set<T>, x: T)
    requires |s| == 1 && x in s
    ensures s == {x}
  {
    assert |s - {x}| == 0;
  }

  /** `get_uid` on the log lines: the one uid they all carry; none, or more than one, is the
      error that ends the program. */
  ghost function Uid(lines: seq<string>): (r: Result<string>)
    ensures r.Success? <==> |UidSet(lines)| == 1
    ensures r.Success? ==> UidSet(lines) == {r.value}
    ensures r.Failure? ==> r.error == MultipleUids
  {
    var uids := UidSet(lines);
    if |uids| != 1 then Failure(MultipleUids)
    else
      var u :| u in uids;
      Singleton(uids, u);
      Success(u)
  }

  // ---------------------------------------------------------------------------
  // get_daily_data

  /** `_, word, grade, date_time = line.split(",")` and `date, time = date_time.split(" ")`;
      either unpacking raises ValueError unless the count is exactly right. */
  function ParseLine(line: string): (r: Result<Entry>)
    ensures r.Failure? ==> r.error == WrongFieldCount
  {
    var fields := Split(line, ',');
    if |fields| != 4 then Failure(WrongFieldCount)
    else
      var dateTime := Split(fields[3], ' ');
      if |dateTime| != 2 then Failure(WrongFieldCount)
      else Success(Entry(FormattedDate(dateTime[0]), dateTime[1], Attempt(fields[1], fields[2])))
  }

  /** A line parses exactly when it has three commas and its last field one space. */
  lemma ParseLineShape(line: string)
    ensures ParseLine(line).Success? <==>
      && Occurrences(line, ',') == 3
      && Occurrences(Split(line, ',')[|Split(line, ',')| - 1], ' ') == 1
  {
    SplitCount(line, ',');
    var fields := Split(line, ',');
    SplitCount(fields[|fields| - 1], ' ');
  }

  /** Writing a line `uid,word,grade,date time` and parsing it gives its fields back, the
      date normalised. */
  lemma ParseLineFields(uid: string, word: string, grade: string, date: string, time: string)
    requires ',' !in uid && ',' !in word && ',' !in grade && ',' !in date && ',' !in time
    requires ' ' !in date && ' ' !in time
    ensures ParseLine(Join([uid, word, grade, Join([date, time], ' ')], ','))
      == Success(Entry(FormattedDate(date), time, Attempt(word, grade)))
  {
    var dateTime := Join([date, time], ' ');
    assert dateTime == date + [' '] + time;
    JoinSplit([date, time], ' ');
    JoinSplit([uid, word, grade, dateTime], ',');
  }

  /** Every line parsed, failing at the first malformed one. */
  function ParseLines(lines: seq<string>): (r: Result<seq<Entry>>)
    ensures r.Success? <==> forall i :: 0 <= i < |lines| ==> ParseLine(lines[i]).Success?
    ensures r.Failure? ==> r.error == WrongFieldCount
    ensures r.Success? ==> |r.value| == |lines|
    ensures r.Success? ==> forall i :: 0 <= i < |lines| ==> ParseLine(lines[i]) == Success(r.value[i])
  {
    if forall i :: 0 <= i < |lines| ==> ParseLine(lines[i]).Success? then
      Success(seq(|lines|, i requires 0 <= i < |lines| => ParseLine(lines[i]).value))
    else Failure(WrongFieldCount)
  }

  /** `daily_data[date][time] = (word, grade)`, creating the day's dict on first use. */
  function Record(data: DailyData, e: Entry): (r: DailyData)
    ensures e.date in r.vals && e.time in r.vals[e.date].vals && r.vals[e.date].vals[e.time] == e.attempt
    ensures forall d :: d in data.vals ==> d in r.vals
  {
    data.Put(e.date, data.Get(e.date, Empty()).Put(e.time, e.attempt))
  }

  /** The dict `get_daily_data` builds from the parsed lines, in line order. */
  function Group(es: seq<Entry>): (r: DailyData)
    ensures forall i :: 0 <= i < |es| ==> es[i].date in r.vals
    ensures es != [] ==>
      var e := es[|es| - 1];
      e.time in r.vals[e.date].vals && r.vals[e.date].vals[e.time] == e.attempt
  {
    if es == [] then Empty() else Record(Group(es[..|es| - 1]), es[|es| - 1])
  }

  /** What `get_daily_data` returns for the lines. */
  function DailyDataOf(lines: seq<string>): (r: Result<DailyData>)
    ensures r.Success? ==> DataValid(r.value)
    ensures r.Failure? ==> r.error == WrongFieldCount
  {
    var es :- ParseLines(lines);
    GroupValid(es);
    Success(Group(es))
  }

  /** One more line adds its date, and its time under that date, and nothing else. */
  lemma RecordKeys(data: DailyData, e: Entry, date: string, time: string)
    ensures date in Record(data, e).vals <==> date in data.vals || date == e.date
    ensures date in Record(data, e).vals && time in Record(data, e).vals[date].vals <==>
      || (date in data.vals && time in data.vals[date].vals)
      || (date == e.date && time == e.time)
  {
  }

  /** The keys of `daily_data` are the dates of the lines. */
  lemma GroupDates(es: seq<Entry>, date: string)
    ensures date in Group(es).vals <==> exists i :: 0 <= i < |es| && es[i].date == date
  {
    if date in Group(es).vals {
      GroupDateHasLine(es, date);
    }
    if exists i :: 0 <= i < |es| && es[i].date == date {
      var i :| 0 <= i < |es| && es[i].date == date;
      GroupLineHasDate(es, i);
    }
  }

  lemma {:induction false} GroupDateHasLine(es: seq<Entry>, date: string)
    requires date in Group(es).vals
    ensures exists i :: 0 <= i < |es| && es[i].date == date
  {
    var n := |es| - 1;
    var init, last := es[..n], es[n];
    var g := Group(init);
    RecordKeys(g, last, date, "");
    if date in g.vals {
      GroupDateHasLine(init, date);
      var i :| 0 <= i < |init| && init[i].date == date;
      assert es[i] == init[i];
    } else {
      assert es[n].date == date;
    }
  }

  lemma {:induction false} GroupLineHasDate(es: seq<Entry>, i: nat)
    requires i < |es|
    ensures es[i].date in Group(es).vals
  {
    var n := |es| - 1;
    var init, last := es[..n], es[n];
    RecordKeys(Group(init), last, es[i].date, "");
    if i < n {
      assert init[i] == es[i];
      GroupLineHasDate(init, i);
    }
  }

  /** Under each date, the keys are the times of that date's lines. */
  lemma GroupTimes(es: seq<Entry>, date: string, time: string)
    ensures date in Group(es).vals && time in Group(es).vals[date].vals <==>
      exists i :: 0 <= i < |es| && es[i].date == date && es[i].time == time
  {
    if date in Group(es).vals && time in Group(es).vals[date].vals {
      GroupTimeHasLine(es, date, time);
    }
    if exists i :: 0 <= i < |es| && es[i].date == date && es[i].time == time {
      var i :| 0 <= i < |es| && es[i].date == date && es[i].time == time;
      GroupLineHasTime(es, i);
    }
  }

  lemma {:induction false} GroupTimeHasLine(es: seq<Entry>, date: string, time: string)
    requires date in Group(es).vals && time in Group(es).vals[date].vals
    ensures exists i :: 0 <= i < |es| && es[i].date == date && es[i].time == time
  {
    var n := |es| - 1;
    var init, last := es[..n], es[n];
    var g := Group(init);
    RecordKeys(g, last, date, time);
    if date in g.vals && time in g.vals[date].vals {
      GroupTimeHasLine(init, date, time);
      var i :| 0 <= i < |init| && init[i].date == date && init[i].time == time;
      assert es[i] == init[i];
    } else {
      assert es[n].date == date && es[n].time == time;
    }
  }

  lemma {:induction false} GroupLineHasTime(es: seq<Entry>, i: nat)
    requires i < |es|
    ensures es[i].date in Group(es).vals && es[i].time in Group(es).vals[es[i].date].vals
  {
    var n := |es| - 1;
    var init, last := es[..n], es[n];
    RecordKeys(Group(init), last, es[i].date, es[i].time);
    if i < n {
      assert init[i] == es[i];
      GroupLineHasTime(init, i);
    }
  }

  /** The dicts built are well formed. */
  lemma {:induction false} GroupValid(es: seq<Entry>)
    ensures DataValid(Group(es))
  {
    if es != [] {
      var n := |es| - 1;
      GroupValid(es[..n]);
      RecordValid(Group(es[..n]), es[n]);
    }
  }

  /** Recording one more entry keeps the dicts well formed. */
  lemma RecordValid(data: DailyData, e: Entry)
    requires DataValid(data)
    ensures DataValid(Record(data, e))
  {
    var day: DayLog := data.Get(e.date, Empty());
    assert day.Valid();
    day.PutKeepsValid(e.time, e.attempt);
    data.PutKeepsValid(e.date, day.Put(e.time, e.attempt));
  }

  /** When a date and time occur on several lines, the last of them wins. */
  lemma {:induction false} GroupLastWins(es: seq<Entry>, i: nat)
    requires i < |es|
    requires forall j :: i < j < |es| ==> es[j].date != es[i].date || es[j].time != es[i].time
    ensures es[i].date in Group(es).vals && es[i].time in Group(es).vals[es[i].date].vals
    ensures Group(es).vals[es[i].date].vals[es[i].time] == es[i].attempt
  {
    if i < |es| - 1 {
      var init := es[..|es| - 1];
      assert init[i] == es[i];
      GroupLastWins(init, i);
    }
  }

  /** The keys of `daily_data` are what `format_date` made of the dates: each one a date in
      normal form or the sentinel string. */
  lemma {:induction false} GroupDatesFormatted(lines: seq<string>)
    requires DailyDataOf(lines).Success?
    ensures forall d :: d in DailyDataOf(lines).value.vals ==> d == InvalidDateFormat || IsNormalized(d)
  {
    var es := ParseLines(lines).value;
    forall d | d in Group(es).vals ensures d == InvalidDateFormat || IsNormalized(d) {
      GroupDates(es, d);
      var i :| 0 <= i < |es| && es[i].date == d;
      assert ParseLine(lines[i]) == Success(es[i]);
    }
  }

  // ---------------------------------------------------------------------------
  // get_daily_word_stats

  /** The counter of a word's statistics that a grade code increments; other codes have none. */
  function CountOf(w: WordStat, grade: string): nat
  {
    if grade == Correct then w.correct
    else if grade == Incorrect then w.incorrect
    else if grade == Skipped then w.skipped
    else 0
  }

  /** One more attempt at a word: the counter of its grade goes up by one, if it has one. */
  function Bump(w: WordStat, grade: string): (r: WordStat)
    ensures forall g :: IsGradeCode(g) ==> CountOf(r, g) == CountOf(w, g) + (if g == grade then 1 else 0)
    ensures r.accuracyPc == w.accuracyPc
  {
    if grade == Correct then w.(correct := w.correct + 1)
    else if grade == Incorrect then w.(incorrect := w.incorrect + 1)
    else if grade == Skipped then w.(skipped := w.skipped + 1)
    else w
  }

  /** One pass of the first loop of `get_daily_word_stats`: the word's entry is created from
      the template when it is new, then the counter of the grade is bumped. */
  function Tally(byWord: Dict<string, WordStat>, a: Attempt): (r: Dict<string, WordStat>)
    ensures a.word in r.vals
    ensures forall w :: w in byWord.vals ==> w in r.vals
    ensures forall w :: w in byWord.vals && w != a.word ==> r.vals[w] == byWord.vals[w]
  {
    byWord.Put(a.word, Bump(byWord.Get(a.word, WordTemplate), a.grade))
  }

  /** The whole first loop, over the attempts in order. */
  function TallyAll(byWord: Dict<string, WordStat>, attempts: seq<Attempt>): (r: Dict<string, WordStat>)
    ensures forall w :: w in byWord.vals ==> w in r.vals
    ensures forall i :: 0 <= i < |attempts| ==> attempts[i].word in r.vals
  {
    if attempts == [] then byWord
    else
      var n := |attempts| - 1;
      Tally(TallyAll(byWord, attempts[..n]), attempts[n])
  }

  /** The number of attempts with the given grade. */
  function Count(attempts: seq<Attempt>, grade: string): nat
  {
    if attempts == [] then 0
    else
      var n := |attempts| - 1;
      Count(attempts[..n], grade) + (if attempts[n].grade == grade then 1 else 0)
  }

  /** The number of attempts at `word` with the given grade. */
  function CountWord(attempts: seq<Attempt>, word: string, grade: string): nat
  {
    if attempts == [] then 0
    else
      var n := |attempts| - 1;
      CountWord(attempts[..n], word, grade)
        + (if attempts[n].word == word && attempts[n].grade == grade then 1 else 0)
  }

  /** The number of attempts whose grade is not one of the three codes. */
  function CountOther(attempts: seq<Attempt>): nat
  {
    if attempts == [] then 0
    else
      var n := |attempts| - 1;
      CountOther(attempts[..n]) + (if IsGradeCode(attempts[n].grade) then 0 else 1)
  }

  /** Every attempt is counted under exactly one of the three grades, or under none when its
      grade is not a code. */
  lemma {:induction false} CountsPartition(attempts: seq<Attempt>)
    ensures Count(attempts, Correct) + Count(attempts, Incorrect) + Count(attempts, Skipped)
      + CountOther(attempts) == |attempts|
  {
    if attempts != [] {
      CountsPartition(attempts[..|attempts| - 1]);
    }
  }

  lemma {:induction false} TallyAllValid(byWord: Dict<string, WordStat>, attempts: seq<Attempt>)
    requires byWord.Valid()
    ensures TallyAll(byWord, attempts).Valid()
  {
    if attempts != [] {
      TallyAllValid(byWord, attempts[..|attempts| - 1]);
    }
  }

  /** After the loop, a word's counters are what they were plus its attempts of each grade. */
  lemma {:induction false} TallyAllWordCounts(byWord: Dict<string, WordStat>, attempts: seq<Attempt>, word: string, g: string)
    requires IsGradeCode(g)
    ensures CountOf(TallyAll(byWord, attempts).Get(word, WordTemplate), g)
      == CountOf(byWord.Get(word, WordTemplate), g) + CountWord(attempts, word, g)
  {
    if attempts != [] {
      var n := |attempts| - 1;
      TallyAllWordCounts(byWord, attempts[..n], word, g);
    }
  }

  /** Every word attempted gets an entry, whatever its grade code. */
  lemma {:induction false} TallyAllHasWord(byWord: Dict<string, WordStat>, attempts: seq<Attempt>, i: nat)
    requires i < |attempts|
    ensures attempts[i].word in TallyAll(byWord, attempts).vals
  {
    var n := |attempts| - 1;
    if i < n {
      assert attempts[..n][i] == attempts[i];
      TallyAllHasWord(byWord, attempts[..n], i);
    }
  }

  /** No word loses its entry. */
  lemma {:induction false} TallyAllGrows(byWord: Dict<string, WordStat>, attempts: seq<Attempt>, word: string)
    requires word in byWord.vals
    ensures word in TallyAll(byWord, attempts).vals
  {
    if attempts != [] {
      TallyAllGrows(byWord, attempts[..|attempts| - 1], word);
    }
  }

  /** Only attempted words (and those there before) have entries. */
  lemma {:induction false} TallyAllWordAttempted(byWord: Dict<string, WordStat>, attempts: seq<Attempt>, word: string)
    requires word in TallyAll(byWord, attempts).vals && word !in byWord.vals
    ensures exists i :: 0 <= i < |attempts| && attempts[i].word == word
  {
    var n := |attempts| - 1;
    var init := attempts[..n];
    if word in TallyAll(byWord, init).vals {
      TallyAllWordAttempted(byWord, init, word);
      var i :| 0 <= i < |init| && init[i].word == word;
      assert attempts[i] == init[i];
    } else {
      assert attempts[n].word == word;
    }
  }

  /** The sum of one counter over the entries listed in `keys`. */
  function SumOver(keys: seq<string>, vals: map<string, WordStat>, g: string): nat
  {
    if keys == [] then 0
    else
      var n := |keys| - 1;
      SumOver(keys[..n], vals, g) + (if keys[n] in vals then CountOf(vals[keys[n]], g) else 0)
  }

  /** The sum of one counter over all words of a `by_word` dict. */
  function SumCounts(byWord: Dict<string, WordStat>, g: string): nat
  {
    SumOver(byWord.keys, byWord.vals, g)
  }

  lemma {:induction false} SumOverFrame(keys: seq<string>, vals: map<string, WordStat>, k: string, v: WordStat, g: string)
    requires k !in keys
    ensures SumOver(keys, vals[k := v], g) == SumOver(keys, vals, g)
  {
    if keys != [] {
      var n := |keys| - 1;
      assert k !in keys[..n];
      SumOverFrame(keys[..n], vals, k, v, g);
    }
  }

  lemma {:induction false} SumOverUpdate(keys: seq<string>, vals: map<string, WordStat>, k: string, v: WordStat, g: string)
    requires k in keys && k in vals
    requires forall i, j :: 0 <= i < j < |keys| ==> keys[i] != keys[j]
    ensures SumOver(keys, vals[k := v], g) + CountOf(vals[k], g) == SumOver(keys, vals, g) + CountOf(v, g)
  {
    var n := |keys| - 1;
    var init := keys[..n];
    if keys[n] == k {
      assert k !in init;
      SumOverFrame(init, vals, k, v, g);
    } else {
      assert k in init;
      SumOverUpdate(init, vals, k, v, g);
    }
  }

  /** One attempt adds one to the sum of its grade's counters. */
  lemma TallySum(byWord: Dict<string, WordStat>, a: Attempt, g: string)
    requires byWord.Valid() && IsGradeCode(g)
    ensures SumCounts(Tally(byWord, a), g) == SumCounts(byWord, g) + (if a.grade == g then 1 else 0)
  {
    var old_ := byWord.Get(a.word, WordTemplate);
    var v := Bump(old_, a.grade);
    if a.word in byWord.vals {
      SumOverUpdate(byWord.keys, byWord.vals, a.word, v, g);
    } else {
      var keys := byWord.keys + [a.word];
      assert keys[..|keys| - 1] == byWord.keys;
      SumOverFrame(byWord.keys, byWord.vals, a.word, v, g);
    }
  }

  /** Summed over all words, the counters of a grade grow by the day's attempts of it. */
  lemma {:induction false} TallyAllSum(byWord: Dict<string, WordStat>, attempts: seq<Attempt>, g: string)
    requires byWord.Valid() && IsGradeCode(g)
    ensures SumCounts(TallyAll(byWord, attempts), g) == SumCounts(byWord, g) + Count(attempts, g)
  {
    if attempts != [] {
      var n := |attempts| - 1;
      TallyAllSum(byWord, attempts[..n], g);
      TallyAllValid(byWord, attempts[..n]);
      TallySum(TallyAll(byWord, attempts[..n]), attempts[n], g);
    }
  }

  /** Pointwise equal counters give equal sums. */
  lemma {:induction false} SumOverSame(keys: seq<string>, a: map<string, WordStat>, b: map<string, WordStat>, g: string)
    requires forall k :: k in keys ==> (k in a <==> k in b)
    requires forall k :: k in keys && k in a && k in b ==> CountOf(a[k], g) == CountOf(b[k], g)
    ensures SumOver(keys, a, g) == SumOver(keys, b, g)
  {
    if keys != [] {
      var n := |keys| - 1;
      assert forall k :: k in keys[..n] ==> k in keys;
      SumOverSame(keys[..n], a, b, g);
    }
  }

  /** Some attempt was correct or incorrect, so that the accuracy is defined. */
  predicate Graded(w: WordStat)
  {
    w.correct + w.incorrect > 0
  }

  /** `word_accuracy_pc` filled in: the share of correct attempts among the correct and
      incorrect ones, which is a percentage; the counters stay as they are. */
  function Scored(w: WordStat): (r: WordStat)
    requires Graded(w)
    ensures r.correct == w.correct && r.incorrect == w.incorrect && r.skipped == w.skipped
    ensures r.accuracyPc == Pc(w.correct, w.correct + w.incorrect)
    ensures 0 <= r.accuracyPc <= 100
  {
    PcBounds(w.correct, w.correct + w.incorrect);
    w.(accuracyPc := Pc(w.correct, w.correct + w.incorrect))
  }

  /** A value, and the exception that cut short the computation of it, if any. */
  datatype Outcome<T> = Outcome(value: T, error: Option<Error>)

  /** Scoring twice is scoring once: the accuracy depends only on the counters. */
  lemma ScoredIdempotent(w: WordStat)
    requires Graded(w)
    ensures Graded(Scored(w)) && Scored(Scored(w)) == Scored(w)
  {
  }

  /** The second loop of `get_daily_word_stats` from the word `keys[0]` on, with the
      entries so far in `vals`: each word's accuracy is filled in until a word with no
      correct or incorrect attempt raises ZeroDivisionError, which leaves it and the words
      after it as they were. (In a well formed dict every listed word has an entry, so the
      membership test never skips one.) */
  function ScoreFrom(keys: seq<string>, vals: map<string, WordStat>): (r: Outcome<map<string, WordStat>>)
    ensures r.value.Keys == vals.Keys
    ensures forall k :: k in vals ==>
      r.value[k].correct == vals[k].correct && r.value[k].incorrect == vals[k].incorrect && r.value[k].skipped == vals[k].skipped
    ensures r.error == None || r.error == Some(ZeroDivision)
  {
    if keys == [] then Outcome(vals, None)
    else if keys[0] !in vals then ScoreFrom(keys[1..], vals)
    else
      var w := vals[keys[0]];
      match Percent(w.correct, w.correct + w.incorrect)
      case Failure(e) => Outcome(vals, Some(e))
      case Success(p) => ScoreFrom(keys[1..], vals[keys[0] := w.(accuracyPc := p)])
  }

  /** The whole second loop, over the words in dict order. */
  function ScoreWords(byWord: Dict<string, WordStat>): (r: Outcome<Dict<string, WordStat>>)
    ensures r.value.keys == byWord.keys && r.value.vals.Keys == byWord.vals.Keys
    ensures r.error == None || r.error == Some(ZeroDivision)
  {
    var o := ScoreFrom(byWord.keys, byWord.vals);
    Outcome(Dict(byWord.keys, o.value), o.error)
  }

  /** Scoring adds no word and removes none, and leaves every counter as it was. */
  lemma {:induction false} ScoreFromKeeps(keys: seq<string>, vals: map<string, WordStat>, k: string, g: string)
    ensures k in ScoreFrom(keys, vals).value <==> k in vals
    ensures k in vals ==> CountOf(ScoreFrom(keys, vals).value[k], g) == CountOf(vals[k], g)
    ensures ScoreFrom(keys, vals).error.Some? ==> ScoreFrom(keys, vals).error == Some(ZeroDivision)
  {
    if keys != [] {
      var k0 := keys[0];
      if k0 !in vals {
        ScoreFromKeeps(keys[1..], vals, k, g);
      } else if Graded(vals[k0]) {
        ScoreFromKeeps(keys[1..], vals[k0 := Scored(vals[k0])], k, g);
      }
    }
  }

  /** A word the loop does not reach again keeps the entry it has. */
  lemma {:induction false} ScoreFromFrame(keys: seq<string>, vals: map<string, WordStat>, k: string)
    requires k !in keys && k in vals
    ensures k in ScoreFrom(keys, vals).value && ScoreFrom(keys, vals).value[k] == vals[k]
  {
    if keys != [] {
      var k0 := keys[0];
      assert k !in keys[1..];
      if k0 !in vals {
        ScoreFromFrame(keys[1..], vals, k);
      } else if Graded(vals[k0]) {
        ScoreFromFrame(keys[1..], vals[k0 := Scored(vals[k0])], k);
      }
    }
  }

  /** When the loop gets through, every word it passed had a correct or incorrect attempt
      and now carries its accuracy. */
  lemma {:induction false} ScoreFromDone(keys: seq<string>, vals: map<string, WordStat>, k: string)
    requires ScoreFrom(keys, vals).error.None? && k in keys && k in vals
    ensures Graded(vals[k])
    ensures k in ScoreFrom(keys, vals).value && ScoreFrom(keys, vals).value[k] == Scored(vals[k])
  {
    var k0, rest := keys[0], keys[1..];
    if k0 !in vals {
      ScoreFromDone(rest, vals, k);
    } else {
      var next := vals[k0 := Scored(vals[k0])];
      if k0 != k {
        ScoreFromDone(rest, next, k);
      } else if k in rest {
        ScoreFromDone(rest, next, k);
        ScoredIdempotent(vals[k]);
      } else {
        ScoreFromFrame(rest, next, k);
      }
    }
  }

  /** A word without a correct or incorrect attempt makes the loop raise. */
  lemma {:induction false} ScoreFromRaises(keys: seq<string>, vals: map<string, WordStat>, k: string)
    requires k in keys && k in vals && !Graded(vals[k])
    ensures ScoreFrom(keys, vals).error == Some(ZeroDivision)
  {
    var k0, rest := keys[0], keys[1..];
    if k0 != k {
      if k0 !in vals {
        ScoreFromRaises(rest, vals, k);
      } else if Graded(vals[k0]) {
        ScoreFromRaises(rest, vals[k0 := Scored(vals[k0])], k);
      }
    }
  }

  /** The loop raises only at a word without a correct or incorrect attempt. */
  lemma {:induction false} ScoreFromCause(keys: seq<string>, vals: map<string, WordStat>) returns (k: string)
    requires ScoreFrom(keys, vals).error.Some?
    ensures k in keys && k in vals && !Graded(vals[k])
  {
    var k0, rest := keys[0], keys[1..];
    if k0 !in vals {
      k := ScoreFromCause(rest, vals);
    } else if !Graded(vals[k0]) {
      k := k0;
    } else {
      var next := vals[k0 := Scored(vals[k0])];
      k := ScoreFromCause(rest, next);
      assert k != k0;
    }
  }

  /** The second loop over all words raises ZeroDivisionError exactly when some word has no
      correct or incorrect attempt; otherwise every word carries its accuracy. Either way no
      word is added or removed and no counter changes. */
  lemma ScoreAll(byWord: Dict<string, WordStat>)
    requires byWord.Valid()
    ensures ScoreWords(byWord).value.Valid() && ScoreWords(byWord).value.keys == byWord.keys
    ensures ScoreWords(byWord).error.Some? ==> ScoreWords(byWord).error == Some(ZeroDivision)
    ensures ScoreWords(byWord).error.None? <==> forall k :: k in byWord.vals ==> Graded(byWord.vals[k])
    ensures ScoreWords(byWord).error.None? ==>
      forall k :: k in byWord.vals ==> ScoreWords(byWord).value.vals[k] == Scored(byWord.vals[k])
    ensures forall k, g :: k in byWord.vals ==>
      CountOf(ScoreWords(byWord).value.vals[k], g) == CountOf(byWord.vals[k], g)
  {
    var o := ScoreFrom(byWord.keys, byWord.vals);
    forall k {
      ScoreFromKeeps(byWord.keys, byWord.vals, k, "");
    }
    forall k, g | k in byWord.vals ensures CountOf(o.value[k], g) == CountOf(byWord.vals[k], g) {
      ScoreFromKeeps(byWord.keys, byWord.vals, k, g);
    }
    if o.error.None? {
      forall k | k in byWord.vals ensures Graded(byWord.vals[k]) && o.value[k] == Scored(byWord.vals[k]) {
        ScoreFromDone(byWord.keys, byWord.vals, k);
      }
    }
    if exists k :: k in byWord.vals && !Graded(byWord.vals[k]) {
      var k :| k in byWord.vals && !Graded(byWord.vals[k]);
      ScoreFromRaises(byWord.keys, byWord.vals, k);
    }
    if o.error.Some? {
      var k := ScoreFromCause(byWord.keys, byWord.vals);
    }
  }

  /** Scoring leaves the sums of the counters as they were. */
  lemma ScoreAllSums(byWord: Dict<string, WordStat>, g: string)
    requires byWord.Valid()
    ensures SumCounts(ScoreWords(byWord).value, g) == SumCounts(byWord, g)
  {
    ScoreAll(byWord);
    SumOverSame(byWord.keys, ScoreWords(byWord).value.vals, byWord.vals, g);
  }

  /** `get_daily_word_stats` on one day's statistics and that day's attempts in time order:
      the word counters, then the day's four totals, then its accuracy (ZeroDivisionError
      when no attempt is correct or incorrect, with the totals already stored), then each
      word's accuracy. */
  function DayWordStats(st: DayStat, attempts: seq<Attempt>): (o: Outcome<DayStat>)
    requires st.byWord.Valid()
    ensures o.value.byWord.Valid()
    ensures o.error.Some? ==> o.error.value == ZeroDivision
  {
    TallyAllValid(st.byWord, attempts);
    var byWord := TallyAll(st.byWord, attempts);
    var c, i, s := Count(attempts, Correct), Count(attempts, Incorrect), Count(attempts, Skipped);
    var counted := DayStat(c, i, s, c + i, st.accuracyPc, byWord);
    match Percent(c, c + i)
    case Failure(e) => Outcome(counted, Some(e))
    case Success(p) =>
      ScoreAll(byWord);
      var scored := ScoreWords(byWord);
      Outcome(counted.(accuracyPc := p, byWord := scored.value), scored.error)
  }

  /** `DayWordStats` unfolded: the counted day, with the percentages when it has graded
      attempts. */
  lemma DayWordStatsSteps(st: DayStat, attempts: seq<Attempt>)
    requires st.byWord.Valid()
    ensures var byWord, c, i := TallyAll(st.byWord, attempts), Count(attempts, Correct), Count(attempts, Incorrect);
      var counted := DayStat(c, i, Count(attempts, Skipped), c + i, st.accuracyPc, byWord);
      && (c + i == 0 ==> DayWordStats(st, attempts) == Outcome(counted, Some(ZeroDivision)))
      && (c + i > 0 ==>
            DayWordStats(st, attempts) ==
            Outcome(counted.(accuracyPc := Pc(c, c + i), byWord := ScoreWords(byWord).value), ScoreWords(byWord).error))
  {
  }

  /** The counters of a day: its totals are the numbers of attempts of each grade, whether
      or not the accuracies then raise; each word's counters grew by that word's attempts,
      and summed over all words they grew by the day's totals. */
  lemma DayCounts(st: DayStat, attempts: seq<Attempt>)
    requires st.byWord.Valid()
    ensures var r := DayWordStats(st, attempts).value;
      && r.wordsCorrect == Count(attempts, Correct)
      && r.wordsIncorrect == Count(attempts, Incorrect)
      && r.wordsSkipped == Count(attempts, Skipped)
      && r.wordsTotal == r.wordsCorrect + r.wordsIncorrect
    ensures forall w, g :: IsGradeCode(g) ==>
      CountOf(DayWordStats(st, attempts).value.byWord.Get(w, WordTemplate), g)
        == CountOf(st.byWord.Get(w, WordTemplate), g) + CountWord(attempts, w, g)
    ensures forall g :: IsGradeCode(g) ==>
      SumCounts(DayWordStats(st, attempts).value.byWord, g) == SumCounts(st.byWord, g) + Count(attempts, g)
  {
    TallyAllValid(st.byWord, attempts);
    var byWord := TallyAll(st.byWord, attempts);
    ScoreAll(byWord);
    var r := DayWordStats(st, attempts).value;
    forall w, g | IsGradeCode(g)
      ensures CountOf(r.byWord.Get(w, WordTemplate), g) == CountOf(st.byWord.Get(w, WordTemplate), g) + CountWord(attempts, w, g)
    {
      TallyAllWordCounts(st.byWord, attempts, w, g);
    }
    forall g | IsGradeCode(g) ensures SumCounts(r.byWord, g) == SumCounts(st.byWord, g) + Count(attempts, g) {
      TallyAllSum(st.byWord, attempts, g);
      ScoreAllSums(byWord, g);
    }
  }

  /** The words of a day: those it had, and every word attempted, whatever the grade. */
  lemma DayWords(st: DayStat, attempts: seq<Attempt>, w: string)
    requires st.byWord.Valid()
    ensures w in DayWordStats(st, attempts).value.byWord.vals <==>
      w in st.byWord.vals || exists i :: 0 <= i < |attempts| && attempts[i].word == w
  {
    TallyAllValid(st.byWord, attempts);
    var byWord := TallyAll(st.byWord, attempts);
    ScoreFromKeeps(byWord.keys, byWord.vals, w, "");
    assert w in DayWordStats(st, attempts).value.byWord.vals <==> w in byWord.vals;
    if w in byWord.vals && w !in st.byWord.vals {
      TallyAllWordAttempted(st.byWord, attempts, w);
    }
    if w in st.byWord.vals {
      TallyAllGrows(st.byWord, attempts, w);
    }
    if exists i :: 0 <= i < |attempts| && attempts[i].word == w {
      var i :| 0 <= i < |attempts| && attempts[i].word == w;
      TallyAllHasWord(st.byWord, attempts, i);
    }
  }

  /** The accuracies of a day: ZeroDivisionError exactly when no attempt of the day, or no
      attempt at one of its words, is correct or incorrect; otherwise the day and each of
      its words carry the percentage of correct attempts among the correct and incorrect
      ones. */
  lemma DayAccuracies(st: DayStat, attempts: seq<Attempt>)
    requires st.byWord.Valid()
    ensures var o := DayWordStats(st, attempts);
      o.error.None? <==>
        && o.value.wordsTotal > 0
        && forall w :: w in o.value.byWord.vals ==> Graded(o.value.byWord.vals[w])
    ensures var o := DayWordStats(st, attempts);
      o.error.None? ==>
        && o.value.accuracyPc == Pc(o.value.wordsCorrect, o.value.wordsTotal)
        && 0 <= o.value.accuracyPc <= 100
        && forall w :: w in o.value.byWord.vals ==>
             var ws := o.value.byWord.vals[w];
             ws.accuracyPc == Pc(ws.correct, ws.correct + ws.incorrect) && 0 <= ws.accuracyPc <= 100
  {
    DayGraded(st, attempts);
    DayScores(st, attempts);
  }

  /** The day raises unless it has a graded attempt and every word has one. */
  lemma DayGraded(st: DayStat, attempts: seq<Attempt>)
    requires st.byWord.Valid()
    ensures var o := DayWordStats(st, attempts);
      o.error.None? <==>
        && o.value.wordsTotal > 0
        && forall w :: w in o.value.byWord.vals ==> Graded(o.value.byWord.vals[w])
  {
    DayWordStatsSteps(st, attempts);
    TallyAllValid(st.byWord, attempts);
    var byWord := TallyAll(st.byWord, attempts);
    var c, i := Count(attempts, Correct), Count(attempts, Incorrect);
    if c + i > 0 {
      ScoreAll(byWord);
      ScoredGraded(byWord);
    }
  }

  /** Every word has a graded attempt and carries its rounded percentage of correct ones. */
  predicate WordsScored(byWord: Dict<string, WordStat>)
  {
    forall w :: w in byWord.vals ==>
      var ws := byWord.vals[w];
      Graded(ws) && ws.accuracyPc == Pc(ws.correct, ws.correct + ws.incorrect) && 0 <= ws.accuracyPc <= 100
  }

  /** A day that does not raise holds the rounded percentages. */
  lemma DayScores(st: DayStat, attempts: seq<Attempt>)
    requires st.byWord.Valid()
    ensures var o := DayWordStats(st, attempts);
      o.error.None? ==>
        && o.value.accuracyPc == Pc(o.value.wordsCorrect, o.value.wordsTotal)
        && 0 <= o.value.accuracyPc <= 100
        && WordsScored(o.value.byWord)
  {
    DayPercentage(st, attempts);
    DayWordsScored(st, attempts);
  }

  /** The day's own percentage, once it has a graded attempt. */
  lemma DayPercentage(st: DayStat, attempts: seq<Attempt>)
    requires st.byWord.Valid()
    ensures var o := DayWordStats(st, attempts);
      o.error.None? ==>
        o.value.accuracyPc == Pc(o.value.wordsCorrect, o.value.wordsTotal) && 0 <= o.value.accuracyPc <= 100
  {
    DayWordStatsSteps(st, attempts);
    var c, i := Count(attempts, Correct), Count(attempts, Incorrect);
    if c + i > 0 {
      PcBounds(c, c + i);
    }
  }

  /** The words' percentages of a day that does not raise. */
  lemma DayWordsScored(st: DayStat, attempts: seq<Attempt>)
    requires st.byWord.Valid()
    ensures DayWordStats(st, attempts).error.None? ==> WordsScored(DayWordStats(st, attempts).value.byWord)
  {
    DayWordStatsSteps(st, attempts);
    TallyAllValid(st.byWord, attempts);
    var byWord := TallyAll(st.byWord, attempts);
    ScoredValues(byWord);
  }

  /** Scoring that gets through gives every word its rounded percentage. */
  lemma ScoredValues(byWord: Dict<string, WordStat>)
    requires byWord.Valid()
    ensures ScoreWords(byWord).error.None? ==> WordsScored(ScoreWords(byWord).value)
  {
    ScoreAll(byWord);
    var o := ScoreWords(byWord);
    if o.error.None? {
      forall w | w in o.value.vals
        ensures Graded(o.value.vals[w])
        ensures o.value.vals[w].accuracyPc == Pc(o.value.vals[w].correct, o.value.vals[w].correct + o.value.vals[w].incorrect)
        ensures 0 <= o.value.vals[w].accuracyPc <= 100
      {
        assert w in o.value.keys;
        assert o.value.vals[w] == Scored(byWord.vals[w]);
      }
    }
  }

  /** Scoring keeps the words, and whether each has a graded attempt. */
  lemma ScoredGraded(byWord: Dict<string, WordStat>)
    requires byWord.Valid()
    ensures forall w :: w in ScoreWords(byWord).value.vals ==>
      w in byWord.vals && (Graded(ScoreWords(byWord).value.vals[w]) <==> Graded(byWord.vals[w]))
  {
    ScoreAll(byWord);
    var scored := ScoreWords(byWord).value;
    forall w | w in scored.vals
      ensures w in byWord.vals && (Graded(scored.vals[w]) <==> Graded(byWord.vals[w]))
    {
      assert w in scored.keys;
      assert CountOf(scored.vals[w], Correct) == CountOf(byWord.vals[w], Correct);
      assert CountOf(scored.vals[w], Incorrect) == CountOf(byWord.vals[w], Incorrect);
    }
  }

  /** A day seen for the first time, as `get_daily_stats` sees every day: each word's
      counters are its attempts of each grade, and they add up to the day's totals. */
  lemma FreshDay(attempts: seq<Attempt>)
    ensures forall w, g :: IsGradeCode(g) ==>
      CountOf(DayWordStats(DayTemplate, attempts).value.byWord.Get(w, WordTemplate), g) == CountWord(attempts, w, g)
    ensures forall g :: IsGradeCode(g) ==>
      SumCounts(DayWordStats(DayTemplate, attempts).value.byWord, g) == Count(attempts, g)
    ensures forall w :: w in DayWordStats(DayTemplate, attempts).value.byWord.vals <==>
      exists i :: 0 <= i < |attempts| && attempts[i].word == w
  {
    DayCounts(DayTemplate, attempts);
    forall w {
      DayWords(DayTemplate, attempts, w);
    }
  }

  // ---------------------------------------------------------------------------
  // init_daily_stats, get_daily_word_stats(day), get_daily_stats

  /** `init_daily_stats`: a fresh template for every date of `daily_data`, in its order. */
  function InitialStats(data: DailyData): (r: Dict<string, DayStat>)
    requires data.Valid()
    ensures StatsValid(r) && r.keys == data.keys
    ensures forall d :: d in r.vals <==> d in data.vals
    ensures forall d :: d in r.vals ==> r.vals[d] == DayTemplate
  {
    Dict(data.keys, map d | d in data.vals :: DayTemplate)
  }

  /** `get_daily_word_stats(day)` on the two dicts: KeyError when either lacks the day, and
      otherwise the day's entry replaced by what the computation left in it. No other day
      changes, and no day is added or removed. */
  function DayUpdate(data: DailyData, stats: Dict<string, DayStat>, day: string): (o: Outcome<Dict<string, DayStat>>)
    requires DataValid(data) && StatsValid(stats)
    ensures StatsValid(o.value) && o.value.keys == stats.keys
    ensures forall d :: d in o.value.vals <==> d in stats.vals
    ensures forall d :: d in stats.vals && d != day ==> o.value.vals[d] == stats.vals[d]
    ensures o.error == Some(MissingKey) <==> day !in data.vals || day !in stats.vals
    ensures day in data.vals && day in stats.vals ==>
      o.value.vals[day] == DayWordStats(stats.vals[day], data.vals[day].Values()).value
      && o.error == DayWordStats(stats.vals[day], data.vals[day].Values()).error
  {
    if day !in data.vals || day !in stats.vals then Outcome(stats, Some(MissingKey))
    else
      var o := DayWordStats(stats.vals[day], data.vals[day].Values());
      ReplaceDay(stats, day, o.value);
      Outcome(stats.Put(day, o.value), o.error)
  }

  /** Storing a day's new statistics over its old ones changes that day and nothing else. */
  lemma ReplaceDay(stats: Dict<string, DayStat>, day: string, v: DayStat)
    requires StatsValid(stats) && day in stats.vals && v.byWord.Valid()
    ensures var r := stats.Put(day, v);
      && StatsValid(r) && r.keys == stats.keys && r.vals[day] == v
      && (forall d :: d in r.vals <==> d in stats.vals)
      && (forall d :: d in stats.vals && d != day ==> r.vals[d] == stats.vals[d])
  {
  }

  /** `for day in days: self.get_daily_word_stats(day)`, stopping at the first exception. */
  function UpdateDays(data: DailyData, stats: Dict<string, DayStat>, days: seq<string>): (r: Outcome<Dict<string, DayStat>>)
    requires DataValid(data) && StatsValid(stats)
    ensures StatsValid(r.value) && r.value.keys == stats.keys
    ensures r.error == None || r.error == Some(MissingKey) || r.error == Some(ZeroDivision)
    decreases |days|
  {
    if days == [] then Outcome(stats, None)
    else
      var o := DayUpdate(data, stats, days[0]);
      if o.error.Some? then o else UpdateDays(data, o.value, days[1..])
  }

  /** The loop changes the days it updates and nothing else: the dict stays well formed,
      with the same days in the same order, and a day not in the list is left alone. */
  lemma {:induction false} UpdateDaysFrame(data: DailyData, stats: Dict<string, DayStat>, days: seq<string>, d: string)
    requires DataValid(data) && StatsValid(stats)
    ensures StatsValid(UpdateDays(data, stats, days).value)
    ensures UpdateDays(data, stats, days).value.keys == stats.keys
    ensures d in UpdateDays(data, stats, days).value.vals <==> d in stats.vals
    ensures d in stats.vals && d !in days ==> UpdateDays(data, stats, days).value.vals[d] == stats.vals[d]
    decreases |days|
  {
    if days != [] {
      var o := DayUpdate(data, stats, days[0]);
      if o.error.None? {
        UpdateDaysFrame(data, o.value, days[1..], d);
        assert d !in days ==> d !in days[1..];
      }
    }
  }

  /** What `get_daily_word_stats(day)` computes for a day in both dicts. */
  function Recompute(data: DailyData, stats: Dict<string, DayStat>, day: string): Outcome<DayStat>
    requires DataValid(data) && StatsValid(stats) && day in data.vals && day in stats.vals
  {
    DayWordStats(stats.vals[day], data.vals[day].Values())
  }

  /** A day of a list without repetitions, once the loop has got through: it was in both
      dicts, its computation did not raise, and it holds what `get_daily_word_stats`
      computes from its entry before the loop. */
  lemma {:induction false} UpdateDaysDone(data: DailyData, stats: Dict<string, DayStat>, days: seq<string>, d: string)
    requires DataValid(data) && StatsValid(stats) && Distinct(days)
    requires UpdateDays(data, stats, days).error.None? && d in days
    ensures d in data.vals && d in stats.vals && Recompute(data, stats, d).error.None?
    ensures d in UpdateDays(data, stats, days).value.vals
    ensures UpdateDays(data, stats, days).value.vals[d] == Recompute(data, stats, d).value
    decreases |days|
  {
    var d0, rest := days[0], days[1..];
    var o := DayUpdate(data, stats, d0);
    DistinctTail(days);
    if d == d0 {
      UpdateDaysFrame(data, o.value, rest, d0);
    } else {
      UpdateDaysDone(data, o.value, rest, d);
      assert Recompute(data, o.value, d) == Recompute(data, stats, d);
    }
  }

  /** When the loop raises, it raises at a listed day that one of the dicts lacks or whose
      own computation raises. */
  lemma {:induction false} UpdateDaysCause(data: DailyData, stats: Dict<string, DayStat>, days: seq<string>) returns (d: string)
    requires DataValid(data) && StatsValid(stats) && Distinct(days)
    requires UpdateDays(data, stats, days).error.Some?
    ensures d in days
    ensures d !in data.vals || d !in stats.vals || Recompute(data, stats, d).error.Some?
    ensures UpdateDays(data, stats, days).error
      == if d !in data.vals || d !in stats.vals then Some(MissingKey) else Recompute(data, stats, d).error
    decreases |days|
  {
    var d0, rest := days[0], days[1..];
    var o := DayUpdate(data, stats, d0);
    DistinctTail(days);
    if o.error.Some? {
      d := d0;
    } else {
      d := UpdateDaysCause(data, o.value, rest);
      assert d != d0;
      if d in data.vals && d in stats.vals {
        assert Recompute(data, o.value, d) == Recompute(data, stats, d);
      }
    }
  }

  /** Each day of a list without repetitions updated once: the loop gets through exactly
      when every listed day is in both dicts and its own computation does not raise, and
      then every listed day holds what `get_daily_word_stats` computes from its entry before
      the loop while every other day is as it was. */
  lemma UpdateDaysResult(data: DailyData, stats: Dict<string, DayStat>, days: seq<string>)
    requires DataValid(data) && StatsValid(stats) && Distinct(days)
    ensures UpdateDays(data, stats, days).error.None? <==>
      forall d :: d in days ==> d in data.vals && d in stats.vals && Recompute(data, stats, d).error.None?
    ensures UpdateDays(data, stats, days).error.None? ==>
      forall d :: d in stats.vals ==>
        && d in UpdateDays(data, stats, days).value.vals
        && UpdateDays(data, stats, days).value.vals[d]
             == if d in days && d in data.vals then Recompute(data, stats, d).value else stats.vals[d]
  {
    var r := UpdateDays(data, stats, days);
    if r.error.None? {
      forall d | d in stats.vals
        ensures d in r.value.vals
        ensures r.value.vals[d] == if d in days && d in data.vals then Recompute(data, stats, d).value else stats.vals[d]
      {
        UpdateDaysFrame(data, stats, days, d);
        if d in days {
          UpdateDaysDone(data, stats, days, d);
        }
      }
      forall d | d in days ensures d in data.vals && d in stats.vals && Recompute(data, stats, d).error.None? {
        UpdateDaysDone(data, stats, days, d);
      }
    } else {
      var d := UpdateDaysCause(data, stats, days);
    }
  }

  // ---------------------------------------------------------------------------
  // __init__

  /** Sorting dates each in normal form or the sentinel, each once: this fails exactly on
      the sentinel, and otherwise gives the same dates, each once. */
  lemma SortKeys(keys: seq<string>)
    requires Distinct(keys)
    requires forall i :: 0 <= i < |keys| ==> keys[i] == InvalidDateFormat || IsNormalized(keys[i])
    ensures SortDates(keys).Success? <==> InvalidDateFormat !in keys
    ensures SortDates(keys).Success? ==>
      Distinct(SortDates(keys).value) && forall d :: d in SortDates(keys).value <==> d in keys
  {
    SentinelDoesNotParse();
    if InvalidDateFormat !in keys {
      SortDatesPermutation(keys);
      var days := SortDates(keys).value;
      DistinctPermutation(keys, days);
      forall d ensures d in days <==> d in keys {
        assert d in multiset(days) <==> d in multiset(keys);
      }
    }
  }

  /** `get_ordered_dates()` on the dict just built: the dates sort exactly when none of them
      is the sentinel, that is when `format_date` read the date of every line, and they then
      come out each once. */
  lemma OrderedDays(lines: seq<string>)
    requires DailyDataOf(lines).Success?
    ensures SortDates(DailyDataOf(lines).value.keys).Success? <==> InvalidDateFormat !in DailyDataOf(lines).value.vals
    ensures SortDates(DailyDataOf(lines).value.keys).Success? ==>
      && Distinct(SortDates(DailyDataOf(lines).value.keys).value)
      && forall d :: d in SortDates(DailyDataOf(lines).value.keys).value <==> d in DailyDataOf(lines).value.vals
  {
    var data := DailyDataOf(lines).value;
    GroupDatesFormatted(lines);
    assert Distinct(data.keys);
    SortKeys(data.keys);
  }

  /** `get_daily_stats` on fresh templates, over each date of `daily_data` once: it gets
      through exactly when no date's computation raises, which can only be
      ZeroDivisionError, and then every date holds what its own computation gives. */
  lemma FreshDays(data: DailyData, days: seq<string>)
    requires DataValid(data) && Distinct(days) && forall d :: d in days <==> d in data.vals
    ensures UpdateDays(data, InitialStats(data), days).error.None? <==>
      forall d :: d in data.vals ==> DayWordStats(DayTemplate, data.vals[d].Values()).error.None?
    ensures UpdateDays(data, InitialStats(data), days).error.Some? ==>
      UpdateDays(data, InitialStats(data), days).error == Some(ZeroDivision)
    ensures var r := UpdateDays(data, InitialStats(data), days);
      && StatsValid(r.value) && r.value.keys == data.keys
      && (forall d :: d in r.value.vals <==> d in data.vals)
      && (r.error.None? ==>
            forall d :: d in data.vals ==> r.value.vals[d] == DayWordStats(DayTemplate, data.vals[d].Values()).value)
  {
    var stats := InitialStats(data);
    var r := UpdateDays(data, stats, days);
    UpdateDaysResult(data, stats, days);
    forall d | d in data.vals ensures Recompute(data, stats, d) == DayWordStats(DayTemplate, data.vals[d].Values()) {
    }
    forall d {
      UpdateDaysFrame(data, stats, days, d);
    }
    if r.error.Some? {
      var d := UpdateDaysCause(data, stats, days);
    }
  }

  /** What a `UserStats` holds once `__init__` has returned. */
  datatype Report = Report(
    upContents: seq<string>, uid: string, dailyData: DailyData, dailyStats: Dict<string, DayStat>)

  /** `__init__(up_contents)`: keep the non-blank lines, find the uid, group the lines by
      date and time, give every date a fresh template and fill it in, date by date in
      calendar order. Each step's exception ends the construction. */
  ghost function Build(upContents: seq<string>): (r: Result<Report>)
    ensures r.Success? ==> r.value.upContents == NonBlank(upContents) && Uid(r.value.upContents) == Success(r.value.uid)
    ensures r.Success? ==> DailyDataOf(r.value.upContents) == Success(r.value.dailyData)
    ensures r.Success? ==> StatsValid(r.value.dailyStats) && r.value.dailyStats.keys == r.value.dailyData.keys
  {
    var lines := NonBlank(upContents);
    var uid :- Uid(lines);
    var data :- DailyDataOf(lines);
    var stats := InitialStats(data);
    var days :- SortDates(data.keys);
    var o := UpdateDays(data, stats, days);
    if o.error.Some? then Failure(o.error.value) else Success(Report(lines, uid, data, o.value))
  }

  /** The first two steps of `__init__`, each of which can end the construction. */
  lemma BuildStopsEarly(upContents: seq<string>)
    ensures Uid(NonBlank(upContents)).Failure? ==>
      Build(upContents) == Failure(Uid(NonBlank(upContents)).error)
    ensures Uid(NonBlank(upContents)).Success? && DailyDataOf(NonBlank(upContents)).Failure? ==>
      Build(upContents) == Failure(DailyDataOf(NonBlank(upContents)).error)
  {
  }

  /** The last two steps of `__init__`, once the uid and the grouped lines are known. */
  lemma BuildFinishes(upContents: seq<string>, uid: string, data: DailyData)
    requires Uid(NonBlank(upContents)) == Success(uid)
    requires DailyDataOf(NonBlank(upContents)) == Success(data)
    ensures SortDates(data.keys).Failure? ==> Build(upContents) == Failure(SortDates(data.keys).error)
    ensures SortDates(data.keys).Success? ==>
      var o := UpdateDays(data, InitialStats(data), SortDates(data.keys).value);
      && (o.error.Some? ==> Build(upContents) == Failure(o.error.value))
      && (o.error.None? ==> Build(upContents) == Success(Report(NonBlank(upContents), uid, data, o.value)))
  {
  }

  /** Why `__init__` fails, in the order of its steps: several uids (or none), a line that
      does not have the four fields and the date and time, a date `format_date` could not
      read, and a day or a word of a day with no correct or incorrect attempt. */
  lemma BuildFailures(upContents: seq<string>)
    ensures var lines := NonBlank(upContents);
      |UidSet(lines)| != 1 ==> Build(upContents) == Failure(MultipleUids)
    ensures var lines := NonBlank(upContents);
      |UidSet(lines)| == 1 && DailyDataOf(lines).Failure? ==> Build(upContents) == Failure(WrongFieldCount)
    ensures var lines := NonBlank(upContents);
      |UidSet(lines)| == 1 && DailyDataOf(lines).Success? && InvalidDateFormat in DailyDataOf(lines).value.vals ==>
        Build(upContents) == Failure(InvalidDate)
    ensures var lines := NonBlank(upContents);
      |UidSet(lines)| == 1 && DailyDataOf(lines).Success? && InvalidDateFormat !in DailyDataOf(lines).value.vals ==>
        var data := DailyDataOf(lines).value;
        && (Build(upContents).Success? <==>
              forall d :: d in data.vals ==> DayWordStats(DayTemplate, data.vals[d].Values()).error.None?)
        && (Build(upContents).Failure? ==> Build(upContents).error == ZeroDivision)
  {
    var lines := NonBlank(upContents);
    if |UidSet(lines)| == 1 && DailyDataOf(lines).Success? {
      OrderedDays(lines);
      var data := DailyDataOf(lines).value;
      if InvalidDateFormat !in data.vals {
        FreshDays(data, SortDates(data.keys).value);
      }
    }
  }

  /** What a constructed `UserStats` holds: the non-blank lines, their one uid, the lines
      grouped by date and time, and for every date, and no other, the statistics
      `get_daily_word_stats` computes from a fresh template and that date's attempts in time
      order. */
  lemma BuildReport(upContents: seq<string>)
    requires Build(upContents).Success?
    ensures var r := Build(upContents).value;
      && r.upContents == NonBlank(upContents)
      && UidSet(r.upContents) == {r.uid}
      && DailyDataOf(r.upContents) == Success(r.dailyData)
      && StatsValid(r.dailyStats) && r.dailyStats.keys == r.dailyData.keys
      && (forall d :: d in r.dailyStats.vals <==> d in r.dailyData.vals)
      && forall d :: d in r.dailyData.vals ==>
           && DayWordStats(DayTemplate, r.dailyData.vals[d].Values()).error.None?
           && r.dailyStats.vals[d] == DayWordStats(DayTemplate, r.dailyData.vals[d].Values()).value
  {
    var lines := NonBlank(upContents);
    OrderedDays(lines);
    var data := DailyDataOf(lines).value;
    FreshDays(data, SortDates(data.keys).value);
  }
}
