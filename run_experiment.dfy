/**
 * tools/run_experiment.py: for each dataset, call every decorated helper of
 * every library on every item, classify what happened into one row per
 * call, and append the rows to the dataset's result file.
 */
module RunExperiment {
  import opened Wrappers
  import opened Dataset
  import opened Outcomes
  import opened CsvLog

  datatype DatasetKind = Normal | Incorrect

  /** The libraries in the order of FUNCTION_MAP. */
  const Libraries: seq<Library> := [Beartype, Typeguard, Icontract]

  /**
   * `call_function(func_name, func, item)`: the arguments each helper gets
   * from the item, and RuntimeError for a name it does not know.
   */
  function CallArgs(funcName: string, item: Item): (r: Result<seq<Arg>, ExceptionClass>)
    ensures r.Err? <==> FuncNamed(funcName).None?
    ensures r.Err? ==> r.error == OtherException("RuntimeError")
    ensures r.Ok? ==> var f := FuncNamed(funcName).value;
      (|r.value| == Arity(f) <==> f != NormalizeQuestion) && (|r.value| == Arity(f) ==> WellKinded(f, r.value))
  {
    if funcName == "is_correct" then Ok([StrArg(item.answer), ItemArg(item)])
    else if funcName == "answer_in_context" then Ok([StrArg(item.answer), StrArg(item.question)])
    else if funcName == "shortest_alias" then Ok([ListArg(item.aliases)])
    else if funcName == "validate_consistency" then Ok([ItemArg(item)])
    else if funcName == "score_candidate" then Ok([StrArg(item.answer), ItemArg(item)])
    else if funcName == "normalize_question" then Ok([StrArg(item.question)])
    else Err(OtherException("RuntimeError"))
  }

  /**
   * How the decorated helpers behave on an item. The three libraries are
   * not part of this model, so the rows are built for any such behaviour;
   * `CallOutcome` is the behaviour this model reads from tools/functions.py.
   */
  type CallModel = (Library, Func, Item) -> Outcome

  /** What calling FUNCTION_MAP[lib][f] through `call_function` does. */
  function CallOutcome(lib: Library, f: Func, item: Item): Outcome {
    FuncNamedRoundTrip(f);
    DecoratedCall(lib, f, CallArgs(FuncName(f), item).value)
  }

  /**
   * Against items the calls can do only four things: `normalize_question`,
   * called without `max_len`, always raises TypeError; `shortest_alias` on
   * an empty alias list raises the library's violation (ValueError under
   * typeguard); every other icontract call raises the TypeError of its
   * postcondition; everything else returns.
   */
  lemma CallOutcomeCases(lib: Library, f: Func, item: Item)
    ensures CallOutcome(lib, f, item) ==
      if f == NormalizeQuestion then Raised(OtherException("TypeError"))
      else if f == ShortestAlias && item.aliases == [] then
        (match lib
         case Beartype => Raised(BeartypeCallHintParamViolation)
         case Icontract => Raised(ViolationError)
         case Typeguard => Raised(OtherException("ValueError")))
      else if lib == Icontract then Raised(OtherException("TypeError"))
      else Returned
  {
    FuncNamedRoundTrip(f);
    var args := CallArgs(FuncName(f), item).value;
    if f != NormalizeQuestion {
      PlainCallRaisesIff(f, args);
    }
  }

  /** A behaviour in which calling `normalize_question` with one argument raises TypeError, as Python does. */
  ghost predicate MissingArgumentRaises(call: CallModel) {
    forall lib, item :: call(lib, NormalizeQuestion, item) == Raised(OtherException("TypeError"))
  }

  /** The modelled behaviour raises TypeError for the missing `max_len`. */
  lemma CallOutcomeMissingArgumentRaises()
    ensures MissingArgumentRaises(CallOutcome)
  {
    forall lib, item
      ensures CallOutcome(lib, NormalizeQuestion, item) == Raised(OtherException("TypeError"))
    {
      CallOutcomeCases(lib, NormalizeQuestion, item);
    }
  }

  /**
   * `injected_error`: "None" on the normal dataset; otherwise the first entry
   * of `_error_flags[func_name]`, or "None" when the flags, the entry or the
   * list are missing or empty.
   */
  function InjectedError(ds: DatasetKind, item: Item, funcName: string): (injected: string)
    ensures ds == Normal ==> injected == "None"
    ensures ds == Incorrect && item.errorFlags.None? ==> injected == "None"
    ensures ds == Incorrect && item.errorFlags.Some? ==>
      if funcName in item.errorFlags.value && item.errorFlags.value[funcName] != []
      then injected == item.errorFlags.value[funcName][0]
      else injected == "None"
  {
    match ds
    case Normal => "None"
    case Incorrect =>
      var flags := if item.errorFlags.Some? then item.errorFlags.value else map[];
      var injected := if funcName in flags then flags[funcName] else [];
      if injected != [] then injected[0] else "None"
  }

  /** `detected_error` and `correctly_detected` of one call. */
  datatype Detection = Detection(detected: string, correct: bool)

  /**
   * The try/except of one call: a return leaves "None"; an exception of the
   * current library is recorded by class name and is correct when that name
   * is the injected error; any other exception is recorded as "Exception".
   */
  function Classify(lib: Library, outcome: Outcome, injected: string): (d: Detection)
    ensures d.detected == "None" <==> outcome == Returned
    ensures d.correct ==> d.detected == injected && injected != "None"
    ensures d.correct <==> outcome.Raised? && RaisedBy(lib, outcome.exc) && ClassName(outcome.exc) == injected
    ensures d.detected == "Exception" <==> outcome.Raised? && !RaisedBy(lib, outcome.exc)
  {
    match outcome
    case Returned => Detection("None", false)
    case Raised(e) =>
      if RaisedBy(lib, e) then
        LibraryClassNames(e, e);
        Detection(ClassName(e), ClassName(e) == injected)
      else Detection("Exception", false)
  }

  /** One row of the result file; the elapsed time is not modelled. */
  datatype Row = Row(
    runId: int,
    timestamp: string,
    dataset: DatasetKind,
    itemId: int,
    func: Func,
    library: Library,
    injected: string,
    detected: string,
    correct: bool,
    injectionPoint: bool)

  /** The header row of experiments_<dataset>_all.csv. */
  const Header: seq<string> := ["run_id", "timestamp", "dataset", "item_id", "function", "library",
    "injected_error", "detected_error", "correctly_detected", "is_injection_point", "time_sec"]

  /** One pass over one dataset, with the run's id and timestamp and the helpers' behaviour. */
  datatype Pass = Pass(dataset: DatasetKind, data: seq<Item>, runId: int, timestamp: string, call: CallModel)

  /** `item["id"]` succeeds for the first `n` items (it is only read on the incorrect dataset). */
  predicate IdsBelow(p: Pass, n: int) {
    p.dataset == Incorrect ==> forall j :: 0 <= j < n && j < |p.data| ==> p.data[j].id.Some?
  }

  /** The row the loop appends for library `lib`, helper `f` and item `i`. */
  function RowFor(p: Pass, lib: Library, f: Func, i: nat): (r: Row)
    requires i < |p.data| && IdsBelow(p, i + 1)
    ensures r.correct ==> r.injectionPoint && r.detected == r.injected
    ensures r.injectionPoint <==> r.injected != "None"
    ensures r.library == lib && r.func == f && r.dataset == p.dataset
    ensures r.itemId == if p.dataset == Normal then i else p.data[i].id.value
    ensures p.dataset == Normal ==> r.injected == "None"
  {
    var item := p.data[i];
    var injected := InjectedError(p.dataset, item, FuncName(f));
    var d := Classify(lib, p.call(lib, f, item), injected);
    var itemId := if p.dataset == Incorrect then item.id.value else i;
    Row(p.runId, p.timestamp, p.dataset, itemId, f, lib, injected, d.detected, d.correct, injected != "None")
  }

  /** The rows of one helper under one library for the first `n` items. */
  function FuncRows(p: Pass, lib: Library, f: Func, n: nat): (rows: seq<Row>)
    requires n <= |p.data| && IdsBelow(p, n)
    ensures |rows| == n
  {
    seq(n, i requires 0 <= i < n => RowFor(p, lib, f, i))
  }

  /** One more item is one more row at the end. */
  lemma FuncRowsStep(p: Pass, lib: Library, f: Func, i: nat)
    requires i < |p.data| && IdsBelow(p, i + 1)
    ensures FuncRows(p, lib, f, i + 1) == FuncRows(p, lib, f, i) + [RowFor(p, lib, f, i)]
  {
  }

  /** The rows of the helpers `fs`, in order, under one library. */
  function LibRows(p: Pass, lib: Library, fs: seq<Func>): (rows: seq<Row>)
    requires IdsBelow(p, |p.data|)
    ensures |rows| == |fs| * |p.data|
  {
    if fs == [] then []
    else
      var rest := LibRows(p, lib, fs[..|fs| - 1]);
      assert |fs| * |p.data| == (|fs| - 1) * |p.data| + |p.data|;
      rest + FuncRows(p, lib, fs[|fs| - 1], |p.data|)
  }

  /** The rows of the libraries `libs`, in order, each over every helper. */
  function AllRows(p: Pass, libs: seq<Library>): (rows: seq<Row>)
    requires IdsBelow(p, |p.data|)
    ensures |rows| == |libs| * (|Funcs| * |p.data|)
  {
    if libs == [] then []
    else
      var rest := AllRows(p, libs[..|libs| - 1]);
      assert |libs| * (|Funcs| * |p.data|) == (|libs| - 1) * (|Funcs| * |p.data|) + |Funcs| * |p.data|;
      rest + LibRows(p, libs[|libs| - 1], Funcs)
  }

  /** Every row of one pass, library first, then helper, then item. */
  function ExpectedRows(p: Pass): seq<Row>
    requires IdsBelow(p, |p.data|)
  {
    AllRows(p, Libraries)
  }

  /** One more block of `n` is `n` more rows. */
  lemma MulStep(a: nat, n: nat)
    ensures (a + 1) * n == a * n + n
  {
  }

  /** Fewer blocks of `n` are no more rows. */
  lemma MulMono(a: nat, b: nat, n: nat)
    requires a <= b
    ensures a * n <= b * n
  {
  }

  /** An offset inside block `k` lies before block `m` when `k < m`. */
  lemma BlockBound(k: nat, m: nat, n: nat, i: nat)
    requires k < m && i < n
    ensures k * n + i < m * n
  {
    MulStep(k, n);
    MulMono(k + 1, m, n);
  }

  /** Item `i` of helper `k` lies within the `6 * n` rows of one library. */
  lemma OffsetBounds(k: nat, n: nat, i: nat)
    requires k < 6 && i < n
    ensures 0 <= k * n + i < 6 * n
  {
    MulMono(0, k, n);
    BlockBound(k, 6, n, i);
  }

  /** An index past the front of a concatenation lands in its back part. */
  lemma ConcatBack<T>(front: seq<T>, back: seq<T>, j: nat, j': nat)
    requires j == |front| + j' && j' < |back|
    ensures j < |front + back| && (front + back)[j] == back[j']
  {
  }

  /** The row at offset `k * n + i` of a library's rows is row `i` of its `k`-th helper. */
  lemma {:induction false} LibRowsAt(p: Pass, lib: Library, fs: seq<Func>, k: nat, i: nat)
    requires IdsBelow(p, |p.data|)
    requires k < |fs| && i < |p.data|
    ensures k * |p.data| + i < |LibRows(p, lib, fs)|
    ensures LibRows(p, lib, fs)[k * |p.data| + i] == FuncRows(p, lib, fs[k], |p.data|)[i]
    decreases |fs|
  {
    var n := |p.data|;
    var m := |fs| - 1;
    var init := fs[..m];
    var front := LibRows(p, lib, init);
    var last := FuncRows(p, lib, fs[m], n);
    assert LibRows(p, lib, fs) == front + last;
    assert |front| == m * n;
    if k < m {
      BlockBound(k, m, n, i);
      LibRowsAt(p, lib, init, k, i);
      assert init[k] == fs[k];
    } else {
      ConcatBack(front, last, k * n + i, i);
    }
  }

  /** The row at offset `l * (6 * n) + off` of all rows is row `off` of library `l`. */
  lemma {:induction false} AllRowsAt(p: Pass, libs: seq<Library>, l: nat, off: nat)
    requires IdsBelow(p, |p.data|)
    requires l < |libs| && off < |Funcs| * |p.data|
    ensures l * (|Funcs| * |p.data|) + off < |AllRows(p, libs)|
    ensures AllRows(p, libs)[l * (|Funcs| * |p.data|) + off] == LibRows(p, libs[l], Funcs)[off]
    decreases |libs|
  {
    var w := |Funcs| * |p.data|;
    var m := |libs| - 1;
    var init := libs[..m];
    var front := AllRows(p, init);
    var last := LibRows(p, libs[m], Funcs);
    assert AllRows(p, libs) == front + last;
    assert |front| == m * w;
    if l < m {
      BlockBound(l, m, w, off);
      AllRowsAt(p, init, l, off);
      assert init[l] == libs[l];
    } else {
      ConcatBack(front, last, l * w + off, off);
    }
  }

  /**
   * One pass yields |libraries| * |functions| * |data| = 18 * |data| rows;
   * the row at `(l * 6 + k) * |data| + i` is item `i` of helper `k` under
   * library `l`, and on the normal dataset its `item_id` is `i`.
   */
  lemma ExpectedRowsLayout(p: Pass, l: nat, k: nat, i: nat)
    requires IdsBelow(p, |p.data|)
    requires l < 3 && k < 6 && i < |p.data|
    ensures |ExpectedRows(p)| == 18 * |p.data|
    ensures (l * 6 + k) * |p.data| + i < |ExpectedRows(p)|
    ensures ExpectedRows(p)[(l * 6 + k) * |p.data| + i] == RowFor(p, Libraries[l], Funcs[k], i)
  {
    var n := |p.data|;
    var off := k * n + i;
    OffsetBounds(k, n, i);
    assert (l * 6 + k) * n + i == l * (6 * n) + off;
    LibRowsAt(p, Libraries[l], Funcs, k, i);
    AllRowsAt(p, Libraries, l, off);
  }

  /** What holds of every row: a correct detection matches the injected error at an injection point, and the normal dataset has none. */
  predicate RowSound(p: Pass, r: Row) {
    && (r.correct ==> r.injectionPoint && r.detected == r.injected)
    && (p.dataset == Normal ==> r.injected == "None" && !r.injectionPoint && !r.correct)
  }

  /** Every row of a library's rows is sound. */
  lemma {:induction false} LibRowsSound(p: Pass, lib: Library, fs: seq<Func>)
    requires IdsBelow(p, |p.data|)
    ensures forall j :: 0 <= j < |LibRows(p, lib, fs)| ==> RowSound(p, LibRows(p, lib, fs)[j])
    decreases |fs|
  {
    if fs != [] {
      var init := fs[..|fs| - 1];
      LibRowsSound(p, lib, init);
      var last := FuncRows(p, lib, fs[|fs| - 1], |p.data|);
      assert forall j :: 0 <= j < |last| ==> RowSound(p, last[j]);
    }
  }

  /** Every row of one pass is sound. */
  lemma {:induction false} AllRowsSound(p: Pass, libs: seq<Library>)
    requires IdsBelow(p, |p.data|)
    ensures forall j :: 0 <= j < |AllRows(p, libs)| ==> RowSound(p, AllRows(p, libs)[j])
    decreases |libs|
  {
    if libs != [] {
      AllRowsSound(p, libs[..|libs| - 1]);
      LibRowsSound(p, libs[|libs| - 1], Funcs);
    }
  }

  /** Every `normalize_question` row records a generic "Exception" and no correct detection. */
  lemma NormalizeRowsAlwaysException(p: Pass, l: nat, i: nat)
    requires IdsBelow(p, |p.data|) && MissingArgumentRaises(p.call)
    requires l < 3 && i < |p.data|
    ensures (l * 6 + 5) * |p.data| + i < |ExpectedRows(p)|
    ensures var r := ExpectedRows(p)[(l * 6 + 5) * |p.data| + i];
      r.func == NormalizeQuestion && r.detected == "Exception" && !r.correct
  {
    ExpectedRowsLayout(p, l, 5, i);
  }

  /**
   * With the modelled behaviour no icontract row records "None": every
   * icontract call raises, so none of its rows can read as a clean pass.
   */
  lemma IcontractRowsNeverNone(p: Pass, k: nat, i: nat)
    requires IdsBelow(p, |p.data|) && p.call == CallOutcome
    requires k < 6 && i < |p.data|
    ensures (2 * 6 + k) * |p.data| + i < |ExpectedRows(p)|
    ensures var r := ExpectedRows(p)[(2 * 6 + k) * |p.data| + i];
      r.library == Icontract && r.detected != "None"
  {
    ExpectedRowsLayout(p, 2, k, i);
    CallOutcomeCases(Icontract, Funcs[k], p.data[i]);
  }

  /**
   * The triple loop over libraries, helpers and items. On the incorrect
   * dataset an item without "id" raises KeyError, which ends the script
   * before anything is written.
   */
  method BuildRows(p: Pass) returns (r: Result<seq<Row>, ExceptionClass>)
    ensures r.Err? <==> !IdsBelow(p, |p.data|)
    ensures r.Err? ==> r.error == OtherException("KeyError")
    ensures r.Ok? ==> IdsBelow(p, |p.data|) && r.value == ExpectedRows(p)
  {
    var rows: seq<Row> := [];
    for l := 0 to |Libraries|
      invariant l > 0 ==> IdsBelow(p, |p.data|) && rows == AllRows(p, Libraries[..l])
      invariant l == 0 ==> rows == []
    {
      var block := LibraryRows(p, Libraries[l]);
      if block.Err? {
        return Err(block.error);
      }
      rows := rows + block.value;
      assert Libraries[..l + 1][..l] == Libraries[..l];
    }
    assert Libraries[..|Libraries|] == Libraries;
    return Ok(rows);
  }

  /** The middle loop: the rows of every helper under one library. */
  method LibraryRows(p: Pass, lib: Library) returns (r: Result<seq<Row>, ExceptionClass>)
    ensures r.Err? <==> !IdsBelow(p, |p.data|)
    ensures r.Err? ==> r.error == OtherException("KeyError")
    ensures r.Ok? ==> IdsBelow(p, |p.data|) && r.value == LibRows(p, lib, Funcs)
  {
    var rows: seq<Row> := [];
    for k := 0 to |Funcs|
      invariant k > 0 ==> IdsBelow(p, |p.data|) && rows == LibRows(p, lib, Funcs[..k])
      invariant k == 0 ==> rows == []
    {
      var block := ItemRows(p, lib, Funcs[k]);
      if block.Err? {
        return Err(block.error);
      }
      rows := rows + block.value;
      assert Funcs[..k + 1][..k] == Funcs[..k];
    }
    assert Funcs[..|Funcs|] == Funcs;
    return Ok(rows);
  }

  /** The innermost loop: one row per item, or KeyError at the first incorrect item without "id". */
  method ItemRows(p: Pass, lib: Library, f: Func) returns (r: Result<seq<Row>, ExceptionClass>)
    ensures r.Err? <==> !IdsBelow(p, |p.data|)
    ensures r.Err? ==> r.error == OtherException("KeyError")
    ensures r.Ok? ==> IdsBelow(p, |p.data|) && r.value == FuncRows(p, lib, f, |p.data|)
  {
    var rows: seq<Row> := [];
    for i := 0 to |p.data|
      invariant IdsBelow(p, i)
      invariant rows == FuncRows(p, lib, f, i)
    {
      if p.dataset == Incorrect && p.data[i].id.None? {
        return Err(OtherException("KeyError"));
      }
      FuncRowsStep(p, lib, f, i);
      rows := rows + [RowFor(p, lib, f, i)];
    }
    return Ok(rows);
  }

  /**
   * One iteration over DATASETS: build the rows, then append them to the
   * dataset's file with the header if the file is new. On KeyError the
   * file is not touched.
   */
  method RunPass(p: Pass, file: CsvFile<Row>) returns (r: Result<(), ExceptionClass>)
    modifies file
    requires file.Valid()
    ensures file.Valid()
    ensures r.Err? <==> !IdsBelow(p, |p.data|)
    ensures r.Err? ==> unchanged(file)
    ensures r.Ok? ==> file.present && file.lines == Appended(old(file.present), old(file.lines), Header, ExpectedRows(p))
  {
    var rows := BuildRows(p);
    if rows.Err? {
      return Err(rows.error);
    }
    AppendWithHeader(file, Header, rows.value);
    return Ok(());
  }

  /**
   * The whole script: the normal pass, then the incorrect pass, each with
   * its own file. A KeyError in the incorrect pass leaves the normal file
   * written and the incorrect file as it was.
   */
  method RunAll(normal: seq<Item>, incorrect: seq<Item>, runId: int, timestamp: string, call: CallModel,
                normalFile: CsvFile<Row>, incorrectFile: CsvFile<Row>) returns (r: Result<(), ExceptionClass>)
    modifies normalFile, incorrectFile
    requires normalFile != incorrectFile
    requires normalFile.Valid() && incorrectFile.Valid()
    ensures normalFile.Valid() && incorrectFile.Valid()
    ensures normalFile.present
    ensures normalFile.lines ==
      Appended(old(normalFile.present), old(normalFile.lines), Header, ExpectedRows(Pass(Normal, normal, runId, timestamp, call)))
    ensures var q := Pass(Incorrect, incorrect, runId, timestamp, call);
      (r.Err? <==> !IdsBelow(q, |incorrect|)) &&
      (r.Err? ==> incorrectFile.present == old(incorrectFile.present) && incorrectFile.lines == old(incorrectFile.lines)) &&
      (r.Ok? ==>
        incorrectFile.lines == Appended(old(incorrectFile.present), old(incorrectFile.lines), Header, ExpectedRows(q)))
  {
    var p := Pass(Normal, normal, runId, timestamp, call);
    var first := RunPass(p, normalFile);
    assert first.Ok?;
    r := RunPass(Pass(Incorrect, incorrect, runId, timestamp, call), incorrectFile);
  }

  /**
   * The items `generate_item` writes carry no "id", so the incorrect pass
   * over any non-empty generated dataset ends in KeyError.
   */
  lemma GeneratedDataFailsIncorrectPass(incorrect: seq<Item>, runId: int, timestamp: string, call: CallModel)
    requires incorrect != [] && incorrect[0].id.None?
    ensures !IdsBelow(Pass(Incorrect, incorrect, runId, timestamp, call), |incorrect|)
  {
  }
}
