/**
 * tools/runners_normal.py: call each plain helper on every item once per
 * library, count passed and failed calls in a table of counters, and append
 * one summary row per library and helper to the result file. The script
 * imports the undecorated helpers, so no library check ever runs: the
 * library only decides how a library exception would be counted.
 */
module RunnersNormal {
  import opened Dataset
  import opened Outcomes
  import opened CsvLog
  import RunExperiment

  /** `libraries`, in the script's order. */
  const Libraries: seq<Library> := [Typeguard, Icontract, Beartype]

  /** DATASET_NAME. */
  const DatasetName: string := "normal"

  /** The position of a library in `Libraries`. */
  function LibPos(lib: Library): (k: nat)
    ensures k < |Libraries| && Libraries[k] == lib
  {
    match lib
    case Typeguard => 0
    case Icontract => 1
    case Beartype => 2
  }

  /** The position of a helper in `Funcs`. */
  function FuncPos(f: Func): (k: nat)
    ensures k < |Funcs| && Funcs[k] == f
  {
    match f
    case IsCorrect => 0
    case AnswerInContext => 1
    case ShortestAlias => 2
    case ValidateConsistency => 3
    case ScoreCandidate => 4
    case NormalizeQuestion => 5
  }

  /** `LibPos` undoes indexing into `Libraries`. */
  lemma LibPosOfLibraries(l: nat)
    requires l < |Libraries|
    ensures LibPos(Libraries[l]) == l
  {
  }

  /** `FuncPos` undoes indexing into `Funcs`. */
  lemma FuncPosOfFuncs(k: nat)
    requires k < |Funcs|
    ensures FuncPos(Funcs[k]) == k
  {
  }

  /**
   * The arguments of the if/elif chain; `item.get(key, default)` always
   * finds the key, and `normalize_question` again gets no `max_len`.
   */
  function RunnerArgs(f: Func, item: Item): (args: seq<Arg>)
    ensures |args| == Arity(f) <==> f != NormalizeQuestion
    ensures |args| == Arity(f) ==> WellKinded(f, args)
    ensures f == ShortestAlias ==> args == [ListArg(item.aliases)]
  {
    match f
    case IsCorrect => [StrArg(item.answer), ItemArg(item)]
    case AnswerInContext => [StrArg(item.answer), StrArg(item.question)]
    case ShortestAlias => [ListArg(item.aliases)]
    case ValidateConsistency => [ItemArg(item)]
    case ScoreCandidate => [StrArg(item.answer), ItemArg(item)]
    case NormalizeQuestion => [StrArg(item.question)]
  }

  /** What the call of the plain helper `f` on `item` does. */
  function PlainOutcome(f: Func, item: Item): Outcome {
    PlainCall(f, RunnerArgs(f, item))
  }

  /**
   * The plain calls fail in two ways only: `normalize_question` always
   * raises TypeError, and `shortest_alias` raises ValueError on an empty
   * alias list.
   */
  lemma PlainOutcomeCases(f: Func, item: Item)
    ensures PlainOutcome(f, item) ==
      if f == NormalizeQuestion then Raised(OtherException("TypeError"))
      else if f == ShortestAlias && item.aliases == [] then Raised(OtherException("ValueError"))
      else Returned
  {
    if f != NormalizeQuestion {
      PlainCallRaisesIff(f, RunnerArgs(f, item));
    }
  }

  /**
   * The except clauses: a library exception fails the call only under its
   * own library and passes it under the others; any other exception fails it.
   */
  function Fails(lib: Library, o: Outcome): (r: bool)
    ensures r <==> o.Raised? && (o.exc.OtherException? || RaisedBy(lib, o.exc))
  {
    match o
    case Returned => false
    case Raised(e) =>
      match e
      case TypeCheckError => lib == Typeguard
      case BeartypeCallHintParamViolation => lib == Beartype
      case BeartypeCallHintReturnViolation => lib == Beartype
      case ViolationError => lib == Icontract
      case OtherException(_) => true
  }

  /**
   * A failure here is a detection other than "None" in tools/run_experiment.py,
   * except for another library's violation: it passes here, and is recorded
   * there as a generic "Exception".
   */
  lemma FailsVersusClassify(lib: Library, o: Outcome, injected: string)
    ensures var d := RunExperiment.Classify(lib, o, injected);
      Fails(lib, o) <==> d.detected != "None" && !(o.Raised? && !o.exc.OtherException? && !RaisedBy(lib, o.exc))
    ensures !Fails(Typeguard, Raised(ViolationError))
    ensures RunExperiment.Classify(Typeguard, Raised(ViolationError), injected).detected == "Exception"
  {
  }

  /** One cell of `stats`: the passed and failed counts (the time is not modelled). */
  datatype Counter = Counter(passed: nat, failed: nat)

  /** The counter after one more call: exactly one of the two counts goes up. */
  function Bumped(c: Counter, failed: bool): (c': Counter)
    ensures c'.passed + c'.failed == c.passed + c.failed + 1
    ensures failed <==> c'.failed == c.failed + 1
    ensures failed <==> c'.passed == c.passed
  {
    if failed then Counter(c.passed, c.failed + 1) else Counter(c.passed + 1, c.failed)
  }

  /** Counts added cell-wise. */
  function Plus(c: Counter, d: Counter): Counter {
    Counter(c.passed + d.passed, c.failed + d.failed)
  }

  /** The counts the loop over `data` gathers for library `lib` and helper `f`. */
  function Tally(lib: Library, f: Func, data: seq<Item>): Counter {
    if data == [] then Counter(0, 0)
    else Bumped(Tally(lib, f, data[..|data| - 1]), Fails(lib, PlainOutcome(f, data[|data| - 1])))
  }

  /** Every item is counted exactly once: passed + failed is the number of items. */
  lemma {:induction false} TallyTotal(lib: Library, f: Func, data: seq<Item>)
    ensures Tally(lib, f, data).passed + Tally(lib, f, data).failed == |data|
    decreases |data|
  {
    if data != [] {
      TallyTotal(lib, f, data[..|data| - 1]);
    }
  }

  /** The number of items whose alias list is empty. */
  function EmptyAliasItems(data: seq<Item>): (n: nat)
    ensures n <= |data|
  {
    if data == [] then 0
    else EmptyAliasItems(data[..|data| - 1]) + (if data[|data| - 1].aliases == [] then 1 else 0)
  }

  /**
   * The failed counts: every `normalize_question` call, the `shortest_alias`
   * calls on items without aliases, and nothing else; the library makes no
   * difference.
   */
  lemma {:induction false} TallyFailed(lib: Library, f: Func, data: seq<Item>)
    ensures Tally(lib, f, data).failed ==
      if f == NormalizeQuestion then |data|
      else if f == ShortestAlias then EmptyAliasItems(data)
      else 0
    decreases |data|
  {
    if data != [] {
      TallyFailed(lib, f, data[..|data| - 1]);
      PlainOutcomeCases(f, data[|data| - 1]);
    }
  }

  /** Since the plain helpers never raise a library exception, all three libraries get the same counts. */
  lemma TallySameForEveryLibrary(lib: Library, lib': Library, f: Func, data: seq<Item>)
    ensures Tally(lib, f, data) == Tally(lib', f, data)
  {
    TallyTotal(lib, f, data);
    TallyTotal(lib', f, data);
    TallyFailed(lib, f, data);
    TallyFailed(lib', f, data);
  }

  /** Counting one more item bumps the tally of the items before it. */
  lemma TallyStep(lib: Library, f: Func, data: seq<Item>, i: nat)
    requires i < |data|
    ensures Tally(lib, f, data[..i + 1]) == Bumped(Tally(lib, f, data[..i]), Fails(lib, PlainOutcome(f, data[i])))
  {
    assert data[..i + 1][..i] == data[..i];
  }

  /** The keys of `stats`: every library with every helper. */
  const Keys: set<(Library, Func)> := set lib, f | lib in Libraries && f in Funcs :: (lib, f)

  /** Every pair of a library and a helper is a key. */
  lemma KeysComplete(key: (Library, Func))
    ensures key in Keys
  {
    assert Libraries[LibPos(key.0)] == key.0 && Funcs[FuncPos(key.1)] == key.1;
    assert (key.0, key.1) == key;
  }

  /** The `stats` table: one counter per library and helper. */
  class Stats {
    var cells: map<(Library, Func), Counter>

    /** Every library and helper has its counter. */
    ghost predicate Valid()
      reads this
    {
      forall key: (Library, Func) :: key in cells
    }

    /** The nested dict comprehension: every counter starts at zero. */
    constructor ()
      ensures Valid()
      ensures forall key: (Library, Func) :: cells[key] == Counter(0, 0)
    {
      cells := map key | key in Keys :: Counter(0, 0);
      new;
      forall key: (Library, Func)
        ensures key in cells
      {
        KeysComplete(key);
      }
    }

    /** One `+= 1`: the counter of (lib, f) goes up by one, every other counter is untouched. */
    method Bump(lib: Library, f: Func, failed: bool)
      modifies this
      requires Valid()
      ensures Valid()
      ensures cells == old(cells)[(lib, f) := Bumped(old(cells)[(lib, f)], failed)]
    {
      cells := cells[(lib, f) := Bumped(cells[(lib, f)], failed)];
    }

    /** The innermost loop: every item, counted for `lib` and `f`. */
    method RunCell(lib: Library, f: Func, data: seq<Item>)
      modifies this
      requires Valid()
      ensures Valid()
      ensures cells[(lib, f)] == Plus(old(cells)[(lib, f)], Tally(lib, f, data))
      ensures forall key: (Library, Func) :: key != (lib, f) ==> cells[key] == old(cells)[key]
    {
      ghost var start := cells[(lib, f)];
      assert data[..0] == [];
      for i := 0 to |data|
        invariant Valid()
        invariant cells[(lib, f)] == Plus(start, Tally(lib, f, data[..i]))
        invariant forall key: (Library, Func) :: key != (lib, f) ==> cells[key] == old(cells)[key]
      {
        var failed := Fails(lib, PlainOutcome(f, data[i]));
        TallyStep(lib, f, data, i);
        Bump(lib, f, failed);
      }
      assert data[..|data|] == data;
    }

    /** The middle loop: every library, for helper `f`. */
    method RunHelper(f: Func, data: seq<Item>)
      modifies this
      requires Valid()
      ensures Valid()
      ensures forall key: (Library, Func) :: (cells[key] ==
        if key.1 == f then Plus(old(cells)[key], Tally(key.0, key.1, data)) else old(cells)[key])
    {
      for l := 0 to |Libraries|
        invariant Valid()
        invariant forall key: (Library, Func) :: (cells[key] ==
          if key.1 == f && LibPos(key.0) < l then Plus(old(cells)[key], Tally(key.0, key.1, data)) else old(cells)[key])
      {
        ghost var before := cells;
        RunCell(Libraries[l], f, data);
        LibPosOfLibraries(l);
        forall key: (Library, Func)
          ensures cells[key] ==
            if key.1 == f && LibPos(key.0) < l + 1 then Plus(old(cells)[key], Tally(key.0, key.1, data)) else old(cells)[key]
        {
          assert key.0 == Libraries[l] <==> LibPos(key.0) == l;
        }
      }
    }

    /** The experiment: for every helper, for every library, count every item. */
    method Run(data: seq<Item>)
      modifies this
      requires Valid()
      ensures Valid()
      ensures forall key: (Library, Func) :: cells[key] == Plus(old(cells)[key], Tally(key.0, key.1, data))
    {
      for k := 0 to |Funcs|
        invariant Valid()
        invariant forall key: (Library, Func) :: (cells[key] ==
          if FuncPos(key.1) < k then Plus(old(cells)[key], Tally(key.0, key.1, data)) else old(cells)[key])
      {
        ghost var before := cells;
        RunHelper(Funcs[k], data);
        FuncPosOfFuncs(k);
        forall key: (Library, Func)
          ensures cells[key] ==
            if FuncPos(key.1) < k + 1 then Plus(old(cells)[key], Tally(key.0, key.1, data)) else old(cells)[key]
        {
          assert key.1 == Funcs[k] <==> FuncPos(key.1) == k;
        }
      }
    }
  }

  /** One row of experiments_normal.csv; the time is not modelled. */
  datatype SummaryRow = SummaryRow(runId: int, timestamp: string, dataset: string,
    library: Library, func: Func, passed: nat, failed: nat)

  /** The header row of experiments_normal.csv. */
  const SummaryHeader: seq<string> := ["run_id", "timestamp", "dataset", "library", "function", "passed", "failed", "time_sec"]

  /** The summary row of one cell. */
  function SummaryRowOf(cells: map<(Library, Func), Counter>, runId: int, timestamp: string, lib: Library, f: Func): SummaryRow
    requires (lib, f) in cells
  {
    SummaryRow(runId, timestamp, DatasetName, lib, f, cells[(lib, f)].passed, cells[(lib, f)].failed)
  }

  /** The summary rows, library first and helper second. */
  function SummaryRows(cells: map<(Library, Func), Counter>, runId: int, timestamp: string): (rows: seq<SummaryRow>)
    requires forall key: (Library, Func) :: key in cells
    ensures |rows| == |Libraries| * |Funcs| == 18
    ensures forall k :: 0 <= k < 18 ==>
      rows[k] == SummaryRowOf(cells, runId, timestamp, Libraries[k / 6], Funcs[k % 6])
  {
    seq(18, k requires 0 <= k < 18 => SummaryRowOf(cells, runId, timestamp, Libraries[k / 6], Funcs[k % 6]))
  }

  /** Each library and helper has exactly one summary row, at position `6 * LibPos(lib) + FuncPos(f)`. */
  lemma SummaryRowsOnePerCell(cells: map<(Library, Func), Counter>, runId: int, timestamp: string, lib: Library, f: Func)
    requires forall key: (Library, Func) :: key in cells
    ensures var rows := SummaryRows(cells, runId, timestamp);
      var k := 6 * LibPos(lib) + FuncPos(f);
      && k < 18
      && rows[k].library == lib && rows[k].func == f
      && rows[k].passed == cells[(lib, f)].passed && rows[k].failed == cells[(lib, f)].failed
      && forall k' :: 0 <= k' < 18 && rows[k'].library == lib && rows[k'].func == f ==> k' == k
  {
    var rows := SummaryRows(cells, runId, timestamp);
    var k := 6 * LibPos(lib) + FuncPos(f);
    assert k / 6 == LibPos(lib) && k % 6 == FuncPos(f);
    forall k' | 0 <= k' < 18 && rows[k'].library == lib && rows[k'].func == f
      ensures k' == k
    {
      assert Libraries[k' / 6] == lib && Funcs[k' % 6] == f;
      assert k' / 6 == LibPos(lib) && k' % 6 == FuncPos(f);
    }
  }

  /** The writing loop: the header if the file is new, then one row per library and helper. */
  method WriteSummary(stats: Stats, file: CsvFile<SummaryRow>, runId: int, timestamp: string)
    modifies file
    requires stats.Valid() && file.Valid()
    ensures file.Valid() && file.present
    ensures file.lines == Appended(old(file.present), old(file.lines), SummaryHeader, SummaryRows(stats.cells, runId, timestamp))
  {
    ghost var rows := SummaryRows(stats.cells, runId, timestamp);
    var existed := file.present;
    file.OpenForAppend();
    if !existed {
      file.WriteLine(HeaderLine(SummaryHeader));
    }
    ghost var start := file.lines;
    for l := 0 to |Libraries|
      invariant file.present && file.lines == start + DataLines(rows[..6 * l])
    {
      WriteLibraryRows(stats, file, runId, timestamp, l);
      DataLinesPrefixStep(start, rows, 6 * l, 6 * l + 6);
    }
    assert rows[..18] == rows;
  }

  /** Row `6 * l + k` of the summary belongs to library `l` and helper `k`. */
  lemma BlockIndex(l: nat, k: nat)
    requires k < 6
    ensures (6 * l + k) / 6 == l && (6 * l + k) % 6 == k
  {
  }

  /** The inner writing loop: the six rows of library `l`, one per helper. */
  method WriteLibraryRows(stats: Stats, file: CsvFile<SummaryRow>, runId: int, timestamp: string, l: nat)
    modifies file
    requires stats.Valid() && file.present && l < |Libraries|
    ensures file.present
    ensures file.lines == old(file.lines) + DataLines(SummaryRows(stats.cells, runId, timestamp)[6 * l..6 * l + 6])
  {
    ghost var rows := SummaryRows(stats.cells, runId, timestamp);
    ghost var block := rows[6 * l..6 * l + 6];
    for k := 0 to |Funcs|
      invariant file.present && file.lines == old(file.lines) + DataLines(block[..k])
    {
      BlockIndex(l, k);
      assert block[k] == SummaryRowOf(stats.cells, runId, timestamp, Libraries[l], Funcs[k]);
      assert DataLines(block[k..k + 1]) == [DataLine(block[k])];
      DataLinesPrefixStep(old(file.lines), block, k, k + 1);
      file.WriteLine(DataLine(SummaryRowOf(stats.cells, runId, timestamp, Libraries[l], Funcs[k])));
    }
    assert block[..6] == block;
  }

  /** The summary rows a run over `data` appends: row `k` holds the tally of library `k / 6` and helper `k % 6`. */
  function ExpectedSummary(data: seq<Item>, runId: int, timestamp: string): (rows: seq<SummaryRow>)
    ensures |rows| == 18
  {
    seq(18, k requires 0 <= k < 18 =>
      var lib, f := Libraries[k / 6], Funcs[k % 6];
      SummaryRow(runId, timestamp, DatasetName, lib, f, Tally(lib, f, data).passed, Tally(lib, f, data).failed))
  }

  /**
   * Every summary row accounts for every item once, and its failed count is
   * all items for `normalize_question`, the items without aliases for
   * `shortest_alias`, and zero for the other helpers, whatever the library.
   */
  lemma ExpectedSummaryCounts(data: seq<Item>, runId: int, timestamp: string, k: nat)
    requires k < 18
    ensures var r := ExpectedSummary(data, runId, timestamp)[k];
      && r.passed + r.failed == |data|
      && r.failed == (if r.func == NormalizeQuestion then |data|
                      else if r.func == ShortestAlias then EmptyAliasItems(data)
                      else 0)
  {
    var lib, f := Libraries[k / 6], Funcs[k % 6];
    TallyTotal(lib, f, data);
    TallyFailed(lib, f, data);
  }

  /**
   * The whole script: fresh counters, the counting loops, then the summary
   * rows appended to the result file.
   */
  method RunNormal(data: seq<Item>, file: CsvFile<SummaryRow>, runId: int, timestamp: string)
    modifies file
    requires file.Valid()
    ensures file.Valid() && file.present
    ensures file.lines ==
      Appended(old(file.present), old(file.lines), SummaryHeader, ExpectedSummary(data, runId, timestamp))
  {
    var stats := new Stats();
    stats.Run(data);
    var rows := SummaryRows(stats.cells, runId, timestamp);
    forall k | 0 <= k < 18
      ensures rows[k] == ExpectedSummary(data, runId, timestamp)[k]
    {
      var key := (Libraries[k / 6], Funcs[k % 6]);
      assert stats.cells[key] == Plus(Counter(0, 0), Tally(key.0, key.1, data));
    }
    WriteSummary(stats, file, runId, timestamp);
  }
}
