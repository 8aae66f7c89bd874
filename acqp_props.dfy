/** What readParameters guarantees: which fields stop the extraction, which
    notices it prints, what an early return for a singlepulse program
    leaves, and what a complete pass leaves in the two dictionaries. */
module ScanRecordProperties {
  import opened Wrappers
  import opened Text
  import opened ParamPatterns
  import opened PatternSpecs
  import opened PatternProperties
  import opened ScanRecord

  // ---------------------------------------------------------------------
  // Reading a table

  /** A table is read to its end exactly when every read in it succeeds;
      whether a read succeeds depends only on the two texts. */
  lemma {:induction false} RunReadsCompletes(rec: Record, table: seq<FieldRead>, find: Finder, acqpText: string, methodText: string, parse: DateParser)
    ensures RunReads(rec, table, find, acqpText, methodText, parse).failure.None? <==>
      forall i :: 0 <= i < |table| ==> Succeeds(table[i], find, acqpText, methodText, parse)
    decreases |table|
  {
    if table != [] {
      var init := table[..|table| - 1];
      RunReadsCompletes(rec, init, find, acqpText, methodText, parse);
      RunReadsLastStep(rec, table, find, acqpText, methodText, parse);
      assert forall i :: 0 <= i < |init| ==> init[i] == table[i];
    }
  }

  /** A table is read to its end exactly when all rows but the last are,
      and the last read succeeds. */
  lemma RunReadsLastStep(rec: Record, table: seq<FieldRead>, find: Finder, acqpText: string, methodText: string, parse: DateParser)
    requires table != []
    ensures RunReads(rec, table, find, acqpText, methodText, parse).failure.None? <==>
      && RunReads(rec, table[..|table| - 1], find, acqpText, methodText, parse).failure.None?
      && Succeeds(table[|table| - 1], find, acqpText, methodText, parse)
  {
  }

  /** The first read that does not succeed stops the table: the record is
      what the rows before it made, and the failure is that read's. */
  lemma RunReadsFirstFailure(rec: Record, table: seq<FieldRead>, i: nat, find: Finder, acqpText: string, methodText: string, parse: DateParser)
    requires i < |table|
    requires forall j :: 0 <= j < i ==> Succeeds(table[j], find, acqpText, methodText, parse)
    requires !Succeeds(table[i], find, acqpText, methodText, parse)
    ensures var before := RunReads(rec, table[..i], find, acqpText, methodText, parse).rec;
      RunReads(rec, table, find, acqpText, methodText, parse)
        == Progress(before, Some(Step(before, table[i], find, acqpText, methodText, parse).error))
  {
    var prefix := table[..i];
    assert forall j :: 0 <= j < |prefix| ==> prefix[j] == table[j];
    RunReadsCompletes(rec, prefix, find, acqpText, methodText, parse);
    assert table[..i + 1][..i] == prefix;
    assert table[..i + 1][i] == table[i];
    RunReadsStops(rec, table, i + 1, find, acqpText, methodText, parse);
  }

  /** The keys of the rows that abort when their search finds nothing. */
  function AbortKeys(table: seq<FieldRead>): set<string> {
    set i | 0 <= i < |table| && table[i].absent == Abort :: table[i].key
  }

  /** The keys of the rows whose capture is parsed as a date. */
  function DateKeys(table: seq<FieldRead>): set<string> {
    set i | 0 <= i < |table| && table[i].decode == ParseDate :: table[i].key
  }

  /** A table stops only on an unguarded field whose search found nothing,
      or on a date that does not parse. */
  lemma {:induction false} RunReadsFailureKey(rec: Record, table: seq<FieldRead>, find: Finder, acqpText: string, methodText: string, parse: DateParser)
    ensures var f := RunReads(rec, table, find, acqpText, methodText, parse).failure;
      f.Some? ==>
        || (f.value.Missing? && f.value.key in AbortKeys(table))
        || (f.value.Unparsable? && f.value.key in DateKeys(table))
    decreases |table|
  {
    if table != [] {
      var init := table[..|table| - 1];
      RunReadsFailureKey(rec, init, find, acqpText, methodText, parse);
      assert AbortKeys(init) <= AbortKeys(table) by {
        forall k | k in AbortKeys(init) ensures k in AbortKeys(table) {
          var i :| 0 <= i < |init| && init[i].absent == Abort && init[i].key == k;
          assert table[i] == init[i];
        }
      }
      assert DateKeys(init) <= DateKeys(table) by {
        forall k | k in DateKeys(init) ensures k in DateKeys(table) {
          var i :| 0 <= i < |init| && init[i].decode == ParseDate && init[i].key == k;
          assert table[i] == init[i];
        }
      }
    }
  }

  /** The notices of the guarded reads whose search found nothing, in table
      order. */
  function Missed(table: seq<FieldRead>, find: Finder, acqpText: string, methodText: string): seq<string>
    decreases |table|
  {
    if table == [] then []
    else
      var r := table[|table| - 1];
      Missed(table[..|table| - 1], find, acqpText, methodText) + NoticeOf(r, find, acqpText, methodText)
  }

  /** A table read to its end appends one notice for each guarded field that
      was not found, and nothing else. */
  lemma {:induction false} RunReadsNotices(rec: Record, table: seq<FieldRead>, find: Finder, acqpText: string, methodText: string, parse: DateParser)
    requires RunReads(rec, table, find, acqpText, methodText, parse).failure.None?
    ensures RunReads(rec, table, find, acqpText, methodText, parse).rec.notices == rec.notices + Missed(table, find, acqpText, methodText)
    decreases |table|
  {
    if table != [] {
      RunReadsNotices(rec, table[..|table| - 1], find, acqpText, methodText, parse);
    }
  }

  /** A read that strips newlines stores text without a newline. */
  lemma StrippedReadHasNoNewline(rec: Record, r: FieldRead, find: Finder, acqpText: string, methodText: string, parse: DateParser)
    requires r.decode == StripNl
    requires Step(rec, r, find, acqpText, methodText, parse).Ok?
    ensures var v := Step(rec, r, find, acqpText, methodText, parse).value.parameters[r.key];
      v.Text? && '\n' !in v.text
  {
  }

  // ---------------------------------------------------------------------
  // Facts about the two tables

  /** The fields whose absence aborts the extraction. */
  const UnguardedKeys: set<string> := {
    "PulseProg", "RepTime", "nAverages", "SaveTime", "ReceiverGain",
    "EchoTime", "RecovTime", "nEchoes", "nSlices", "nSlicePacks", "FOV",
    "Matrix", "SliceThick", "SliceSep", "SliceList", "SliceOffset",
    "SlicePackOffset", "ReadOffset", "PhaseOffset", "ImageOrient",
    "FlipAngle", "BasicFreq", "SpecWidth", "ReadOutDir", "ByteOrder"}

  /** The fields read before the singlepulse check. */
  const EarlyKeys: set<string> := {"PulseProg", "RepTime", "nAverages", "acqProtocol", "nRepetitions", "SaveTime"}

  lemma UnguardedFields()
    ensures forall i :: 0 <= i < |EarlyReads| ==> (EarlyReads[i].absent == Abort <==> EarlyReads[i].key in UnguardedKeys)
    ensures forall i :: 0 <= i < |LateReads| ==> (LateReads[i].absent == Abort <==> LateReads[i].key in UnguardedKeys)
  {
    UnguardedEarly();
    UnguardedLate(0, 15);
    UnguardedLate(15, 30);
  }

  /** The early rows that abort are those of unguarded keys. */
  lemma UnguardedEarly()
    ensures forall i :: 0 <= i < |EarlyReads| ==> (EarlyReads[i].absent == Abort <==> EarlyReads[i].key in UnguardedKeys)
  {
  }

  /** The late rows from lo to hi that abort are those of unguarded keys. */
  lemma UnguardedLate(lo: nat, hi: nat)
    requires lo <= hi <= |LateReads|
    ensures forall i :: lo <= i < hi ==> (LateReads[i].absent == Abort <==> LateReads[i].key in UnguardedKeys)
  {
  }

  /** Every unguarded field has a row. */
  lemma UnguardedListed()
    ensures UnguardedKeys <= KeysOf(EarlyReads) + KeysOf(LateReads)
  {
    // The row of each unguarded field.
    assert EarlyReads[0].key == "PulseProg";
    assert EarlyReads[1].key == "RepTime";
    assert EarlyReads[2].key == "nAverages";
    assert EarlyReads[5].key == "SaveTime";
    assert LateReads[1].key == "ReceiverGain";
    assert LateReads[2].key == "EchoTime";
    assert LateReads[3].key == "RecovTime";
    assert LateReads[4].key == "nEchoes";
    assert LateReads[5].key == "nSlices";
    assert LateReads[6].key == "nSlicePacks";
    assert LateReads[7].key == "FOV";
    assert LateReads[8].key == "Matrix";
    assert LateReads[9].key == "SliceThick";
    assert LateReads[10].key == "SliceSep";
    assert LateReads[11].key == "SliceList";
    assert LateReads[12].key == "SliceOffset";
    assert LateReads[13].key == "SlicePackOffset";
    assert LateReads[14].key == "ReadOffset";
    assert LateReads[15].key == "PhaseOffset";
    assert LateReads[16].key == "ImageOrient";
    assert LateReads[18].key == "FlipAngle";
    assert LateReads[19].key == "BasicFreq";
    assert LateReads[20].key == "SpecWidth";
    assert LateReads[23].key == "ReadOutDir";
    assert LateReads[27].key == "ByteOrder";
  }

  /** Only the save time is parsed as a date. */
  lemma DateFields()
    ensures DateKeys(EarlyReads) == {"SaveTime"}
    ensures DateKeys(LateReads) == {}
  {
    assert EarlyReads[5].decode == ParseDate;
    assert forall i :: 0 <= i < |EarlyReads| && EarlyReads[i].decode == ParseDate ==> i == 5;
    assert forall i :: 0 <= i < |LateReads| ==> LateReads[i].decode != ParseDate;
  }

  lemma EarlyFields()
    ensures KeysOf(EarlyReads) == EarlyKeys
  {
    assert EarlyReads[0].key == "PulseProg" && EarlyReads[1].key == "RepTime" && EarlyReads[2].key == "nAverages";
    assert EarlyReads[3].key == "acqProtocol" && EarlyReads[4].key == "nRepetitions" && EarlyReads[5].key == "SaveTime";
  }

  /** Neither table writes ScanNumber, and the late table does not write the
      save time again. */
  lemma UnreadFields()
    ensures "ScanNumber" !in KeysOf(EarlyReads) && "ScanNumber" !in KeysOf(LateReads)
    ensures "SaveTime" !in KeysOf(LateReads)
  {
    assert forall i :: 0 <= i < |EarlyReads| ==> EarlyReads[i].key != "ScanNumber";
    assert forall i :: 0 <= i < |LateReads| ==> LateReads[i].key != "ScanNumber" && LateReads[i].key != "SaveTime";
  }

  predicate IsArrayShape(p: Pattern) {
    p.Template? && (p.shape == FloatArray || p.shape == TextArray)
  }

  /** Every float-array and text-array field has its newlines stripped. */
  lemma ArrayFieldsStripNewlines()
    ensures forall i :: 0 <= i < |EarlyReads| && IsArrayShape(EarlyReads[i].pattern) ==> EarlyReads[i].decode == StripNl
    ensures forall i :: 0 <= i < |LateReads| && IsArrayShape(LateReads[i].pattern) ==> LateReads[i].decode == StripNl
  {
  }

  /** Every guarded field of the early table announces itself by name. */
  lemma EarlyNotices()
    ensures forall i :: 0 <= i < |EarlyReads| ==> EarlyReads[i].absent == Abort || EarlyReads[i].absent == Guarded(EarlyReads[i].key)
  {
  }

  /** Every guarded field of the late table announces itself by name, except
      RareFactor (row 24), whose notice names nEvolutionCycles, and
      ExcitationPulse (row 21), the one field left blank without a notice. */
  lemma LateNotices()
    ensures forall i :: 0 <= i < |LateReads| && i != 21 && i != 24 ==>
      LateReads[i].absent == Abort || LateReads[i].absent == Guarded(LateReads[i].key)
    ensures LateReads[24].key == "RareFactor" && LateReads[24].absent == Guarded("nEvolutionCycles")
    ensures LateReads[21].key == "ExcitationPulse" && LateReads[21].absent == Silent
  {
  }

  // ---------------------------------------------------------------------
  // readParameters on a freshly constructed record

  /** The CSV dictionary has exactly the columns of the study CSV file. */
  lemma CsvColumns()
    ensures CsvKeys == Fieldnames
  {
  }

  /** With any two tables, the extraction fails only on a row of either
      table that aborts, or on a row that parses a date. */
  lemma ExtractFailureKey(rec: Record, early: seq<FieldRead>, late: seq<FieldRead>,
                          find: Finder, acqpText: string, methodText: string, parse: DateParser)
    requires rec.csv.Keys <= rec.parameters.Keys
    ensures var x := ExtractWith(rec, early, late, find, acqpText, methodText, parse);
      x.outcome.Fatal? ==>
        || (x.outcome.failure.Missing? && x.outcome.failure.key in AbortKeys(early) + AbortKeys(late))
        || (x.outcome.failure.Unparsable? && x.outcome.failure.key in DateKeys(early) + DateKeys(late))
  {
    RunReadsFailureKey(rec, early, find, acqpText, methodText, parse);
    var e := RunReads(rec, early, find, acqpText, methodText, parse);
    RunReadsFailureKey(e.rec, late, find, acqpText, methodText, parse);
  }

  /** The extraction ends on a failure only for an unguarded field that was
      not found or a save time that does not parse. */
  lemma FatalOnlyUnguarded(rec: Record, find: Finder, acqpText: string, methodText: string, parse: DateParser)
    requires rec.csv.Keys <= rec.parameters.Keys
    requires Extract(rec, find, acqpText, methodText, parse).outcome.Fatal?
    ensures var f := Extract(rec, find, acqpText, methodText, parse).outcome.failure;
      (f.Missing? && f.key in UnguardedKeys) || f == Unparsable("SaveTime")
  {
    UnguardedFields();
    DateFields();
    ExtractFailureKey(rec, EarlyReads, LateReads, find, acqpText, methodText, parse);
  }

  /** What readParameters leaves alone, with any two tables: an early return
      or a failure does not touch the CSV dictionary, no key is lost, an
      early return changes only the keys of the early table, and a complete
      pass changes no entry outside the two tables and the PV version. */
  lemma ExtractFrame(rec: Record, early: seq<FieldRead>, late: seq<FieldRead>,
                     find: Finder, acqpText: string, methodText: string, parse: DateParser)
    requires rec.csv.Keys <= rec.parameters.Keys
    ensures var x := ExtractWith(rec, early, late, find, acqpText, methodText, parse);
      && rec.parameters.Keys <= x.rec.parameters.Keys
      && (x.outcome != Completed ==> x.rec.csv == rec.csv)
      && (x.outcome == Completed ==> x.rec.csv.Keys == rec.csv.Keys)
      && (x.outcome == EarlyReturn ==>
            forall k :: k in rec.parameters && k !in KeysOf(early) ==> x.rec.parameters[k] == rec.parameters[k])
      && (x.outcome == Completed ==>
            forall k :: k in rec.parameters && k !in KeysOf(early) && k !in KeysOf(late) && k != "PVver" && k != "Major PV ver"
              ==> x.rec.parameters[k] == rec.parameters[k])
  {
    RunReadsKeepsOthers(rec, early, find, acqpText, methodText, parse);
    var e := RunReads(rec, early, find, acqpText, methodText, parse).rec;
    RunReadsKeepsOthers(e, late, find, acqpText, methodText, parse);
  }

  /** An early return leaves the record with the keys of __init__. */
  lemma EarlyReturnKeys(rec: Record, early: seq<FieldRead>, late: seq<FieldRead>,
                        find: Finder, acqpText: string, methodText: string, parse: DateParser)
    requires rec.parameters.Keys == ParamKeys && rec.csv.Keys == CsvKeys
    requires KeysOf(early) <= ParamKeys
    ensures CsvKeys <= ParamKeys
    ensures var x := ExtractWith(rec, early, late, find, acqpText, methodText, parse);
      x.outcome == EarlyReturn ==> x.rec.parameters.Keys == ParamKeys
  {
    CsvKeysAreParameterKeys();
    RunReadsKeepsKeys(rec, early, find, acqpText, methodText, parse);
  }

  /** A singlepulse program returns after the six early fields: the CSV
      dictionary is still as __init__ made it (ScanNumber 0) and every
      other entry of `parameters` is still ''. */
  lemma EarlyReturnLeavesRest(scanNum: string, find: Finder, acqpText: string, methodText: string, parse: DateParser)
    requires Extract(InitialRecord(scanNum), find, acqpText, methodText, parse).outcome == EarlyReturn
    ensures var out := Extract(InitialRecord(scanNum), find, acqpText, methodText, parse).rec;
      && out.csv == InitialCsv()
      && out.parameters.Keys == ParamKeys
      && out.parameters["ScanNumber"] == Text(scanNum)
      && forall k :: k in ParamKeys && k !in EarlyKeys && k != "ScanNumber" ==> out.parameters[k] == Blank
  {
    var rec := InitialRecord(scanNum);
    TableKeysAreParameterKeys();
    EarlyFields();
    UnreadFields();
    EarlyReturnKeys(rec, EarlyReads, LateReads, find, acqpText, methodText, parse);
    ExtractFrame(rec, EarlyReads, LateReads, find, acqpText, methodText, parse);
  }

  /** With any two tables whose row k reads PulseProg as is and aborts when
      absent: once the early table is read, row k's search has found a
      match, and the pass returns early exactly when that capture, lowered,
      contains `singlepulse`. */
  lemma SinglePulseReturnsEarlyWith(rec: Record, early: seq<FieldRead>, late: seq<FieldRead>, k: nat,
                                    find: Finder, acqpText: string, methodText: string, parse: DateParser)
    requires rec.csv.Keys <= rec.parameters.Keys
    requires k < |early| && early[k].key == "PulseProg" && early[k].decode == AsIs && early[k].absent == Abort
    requires forall j :: k < j < |early| ==> early[j].key != "PulseProg"
    requires RunReads(rec, early, find, acqpText, methodText, parse).failure.None?
    ensures var c := Capture(early[k], find, acqpText, methodText);
      && c.Some?
      && (ExtractWith(rec, early, late, find, acqpText, methodText, parse).outcome == EarlyReturn
          <==> Contains(Lower(c.value.group1), "singlepulse"))
  {
    RunReadsCompletes(rec, early, find, acqpText, methodText, parse);
    assert Succeeds(early[k], find, acqpText, methodText, parse);
    RunReadsStores(rec, early, k, find, acqpText, methodText, parse);
  }

  /** The singlepulse check of readParameters: once the six early reads
      succeed, the `##$PULPROG` search has found a match, and the pass
      returns early exactly when that capture, lowered, contains
      `singlepulse`. */
  lemma SinglePulseReturnsEarly(scanNum: string, find: Finder, acqpText: string, methodText: string, parse: DateParser)
    requires RunReads(InitialRecord(scanNum), EarlyReads, find, acqpText, methodText, parse).failure.None?
    ensures var pulseProg := find(acqpText, Template(AngleText, "##$PULPROG"));
      && pulseProg.Some?
      && (Extract(InitialRecord(scanNum), find, acqpText, methodText, parse).outcome == EarlyReturn
          <==> Contains(Lower(pulseProg.value.group1), "singlepulse"))
  {
    EarlyKeysApart();
    SinglePulseReturnsEarlyWith(InitialRecord(scanNum), EarlyReads, LateReads, 0, find, acqpText, methodText, parse);
  }

  /** With any two tables whose early keys are distinct, an early return
      leaves every early row's key at what its read stores. */
  lemma EarlyReturnStoresWith(rec: Record, early: seq<FieldRead>, late: seq<FieldRead>,
                              find: Finder, acqpText: string, methodText: string, parse: DateParser)
    requires rec.csv.Keys <= rec.parameters.Keys
    requires ExtractWith(rec, early, late, find, acqpText, methodText, parse).outcome == EarlyReturn
    requires DistinctKeys(early)
    ensures var out := ExtractWith(rec, early, late, find, acqpText, methodText, parse).rec;
      forall i :: 0 <= i < |early| ==>
        early[i].key in out.parameters
        && StoresValue(early[i], find, acqpText, methodText, parse, out.parameters[early[i].key])
  {
    var e := RunReads(rec, early, find, acqpText, methodText, parse);
    assert e.failure.None?;
    forall i | 0 <= i < |early|
      ensures early[i].key in e.rec.parameters
      ensures StoresValue(early[i], find, acqpText, methodText, parse, e.rec.parameters[early[i].key])
    {
      RunReadsStores(rec, early, i, find, acqpText, methodText, parse);
    }
  }

  /** After the early return of readParameters every early field holds what
      its read stores: the decoded capture, or '' for a guarded field whose
      search found nothing. */
  lemma EarlyReturnStores(scanNum: string, find: Finder, acqpText: string, methodText: string, parse: DateParser)
    requires Extract(InitialRecord(scanNum), find, acqpText, methodText, parse).outcome == EarlyReturn
    ensures var out := Extract(InitialRecord(scanNum), find, acqpText, methodText, parse).rec;
      forall i :: 0 <= i < |EarlyReads| ==>
        EarlyReads[i].key in out.parameters
        && StoresValue(EarlyReads[i], find, acqpText, methodText, parse, out.parameters[EarlyReads[i].key])
  {
    EarlyKeysApart();
    EarlyReturnStoresWith(InitialRecord(scanNum), EarlyReads, LateReads, find, acqpText, methodText, parse);
  }

  /** With any two tables, a complete pass leaves each CSV entry equal to the
      `parameters` entry of the same key. */
  lemma CompletedCsvMatches(rec: Record, early: seq<FieldRead>, late: seq<FieldRead>,
                            find: Finder, acqpText: string, methodText: string, parse: DateParser)
    requires rec.csv.Keys <= rec.parameters.Keys
    requires ExtractWith(rec, early, late, find, acqpText, methodText, parse).outcome == Completed
    ensures var out := ExtractWith(rec, early, late, find, acqpText, methodText, parse).rec;
      && out.csv.Keys <= out.parameters.Keys
      && forall k :: k in out.csv ==> out.csv[k] == out.parameters[k]
  {
    ExtractFrame(rec, early, late, find, acqpText, methodText, parse);
  }

  /** No row of the table reads the key of an earlier row. */
  predicate DistinctKeys(table: seq<FieldRead>) {
    forall i, j :: 0 <= i < j < |table| ==> table[i].key != table[j].key
  }

  /** Neither table reads the two keys of the PV version. */
  predicate AvoidsVersionKeys(table: seq<FieldRead>) {
    forall i :: 0 <= i < |table| ==> table[i].key != "PVver" && table[i].key != "Major PV ver"
  }

  /** Rows of the late table read different keys, in five slices of rows. */
  lemma LateKeysApartFirst()
    ensures forall i, j :: 0 <= i < 3 && i < j < |LateReads| ==> LateReads[i].key != LateReads[j].key
  {
  }

  lemma LateKeysApartSecond()
    ensures forall i, j :: 3 <= i < 6 && i < j < |LateReads| ==> LateReads[i].key != LateReads[j].key
  {
  }

  lemma LateKeysApartThird()
    ensures forall i, j :: 6 <= i < 10 && i < j < |LateReads| ==> LateReads[i].key != LateReads[j].key
  {
  }

  lemma LateKeysApartFourth()
    ensures forall i, j :: 10 <= i < 20 && i < j < |LateReads| ==> LateReads[i].key != LateReads[j].key
  {
  }

  lemma LateKeysApartFifth()
    ensures forall i, j :: 20 <= i < 30 && i < j < |LateReads| ==> LateReads[i].key != LateReads[j].key
  {
  }

  /** The early table reads every key once and shares none with the late
      table. */
  lemma EarlyKeysApart()
    ensures DistinctKeys(EarlyReads)
    ensures forall i, j :: 0 <= i < |EarlyReads| && 0 <= j < |LateReads| ==> EarlyReads[i].key != LateReads[j].key
  {
  }

  /** Neither table reads the keys of the PV version. */
  lemma VersionKeysUnread()
    ensures AvoidsVersionKeys(EarlyReads) && AvoidsVersionKeys(LateReads)
  {
  }

  /** Each table reads every key at most once. */
  lemma TableKeysDistinct()
    ensures DistinctKeys(EarlyReads) && DistinctKeys(LateReads)
  {
    EarlyKeysApart();
    LateKeysApartFirst();
    LateKeysApartSecond();
    LateKeysApartThird();
    LateKeysApartFourth();
    LateKeysApartFifth();
  }

  /** After a pass that completes, every key either table reads holds what
      its read stores: the decoded capture, or '' for a guarded field whose
      search found nothing. */
  lemma CompletedStoresWith(rec: Record, early: seq<FieldRead>, late: seq<FieldRead>,
                            find: Finder, acqpText: string, methodText: string, parse: DateParser)
    requires rec.csv.Keys <= rec.parameters.Keys
    requires ExtractWith(rec, early, late, find, acqpText, methodText, parse).outcome == Completed
    requires DistinctKeys(early) && DistinctKeys(late)
    requires forall i, j :: 0 <= i < |early| && 0 <= j < |late| ==> early[i].key != late[j].key
    requires AvoidsVersionKeys(early) && AvoidsVersionKeys(late)
    ensures var out := ExtractWith(rec, early, late, find, acqpText, methodText, parse).rec;
      && (forall i :: 0 <= i < |early| ==>
            early[i].key in out.parameters && StoresValue(early[i], find, acqpText, methodText, parse, out.parameters[early[i].key]))
      && (forall i :: 0 <= i < |late| ==>
            late[i].key in out.parameters && StoresValue(late[i], find, acqpText, methodText, parse, out.parameters[late[i].key]))
  {
    var e := RunReads(rec, early, find, acqpText, methodText, parse);
    var l := RunReads(e.rec, late, find, acqpText, methodText, parse);
    assert e.failure.None? && l.failure.None?;
    var out := ExtractWith(rec, early, late, find, acqpText, methodText, parse).rec;
    assert out == CopyCsv(VersionStep(l.rec, find, acqpText));
    RunReadsKeepsOthers(e.rec, late, find, acqpText, methodText, parse);
    forall i | 0 <= i < |early|
      ensures early[i].key in l.rec.parameters
      ensures StoresValue(early[i], find, acqpText, methodText, parse, l.rec.parameters[early[i].key])
    {
      RunReadsStores(rec, early, i, find, acqpText, methodText, parse);
      assert early[i].key !in KeysOf(late);
    }
    forall i | 0 <= i < |late|
      ensures late[i].key in l.rec.parameters
      ensures StoresValue(late[i], find, acqpText, methodText, parse, l.rec.parameters[late[i].key])
    {
      RunReadsStores(e.rec, late, i, find, acqpText, methodText, parse);
    }
  }

  /** readParameters, when it runs to the end, leaves in `parameters` for
      every key of both tables what that key's read stores. */
  lemma CompletedStores(scanNum: string, find: Finder, acqpText: string, methodText: string, parse: DateParser)
    requires Extract(InitialRecord(scanNum), find, acqpText, methodText, parse).outcome == Completed
    ensures var out := Extract(InitialRecord(scanNum), find, acqpText, methodText, parse).rec;
      && (forall i :: 0 <= i < |EarlyReads| ==>
            EarlyReads[i].key in out.parameters
            && StoresValue(EarlyReads[i], find, acqpText, methodText, parse, out.parameters[EarlyReads[i].key]))
      && (forall i :: 0 <= i < |LateReads| ==>
            LateReads[i].key in out.parameters
            && StoresValue(LateReads[i], find, acqpText, methodText, parse, out.parameters[LateReads[i].key]))
  {
    CsvKeysAreParameterKeys();
    TableKeysDistinct();
    EarlyKeysApart();
    VersionKeysUnread();
    CompletedStoresWith(InitialRecord(scanNum), EarlyReads, LateReads, find, acqpText, methodText, parse);
  }

  /** After a complete pass the CSV dictionary has exactly the columns of the
      study CSV file, each holding what `parameters` holds for it, and
      ScanNumber is the constructor's argument in both. */
  lemma CompletedCopiesCsv(scanNum: string, find: Finder, acqpText: string, methodText: string, parse: DateParser)
    requires Extract(InitialRecord(scanNum), find, acqpText, methodText, parse).outcome == Completed
    ensures var out := Extract(InitialRecord(scanNum), find, acqpText, methodText, parse).rec;
      && out.csv.Keys == Fieldnames
      && out.csv.Keys <= out.parameters.Keys
      && (forall k :: k in out.csv ==> out.csv[k] == out.parameters[k])
      && out.parameters["ScanNumber"] == Text(scanNum)
      && out.csv["ScanNumber"] == Text(scanNum)
  {
    var rec := InitialRecord(scanNum);
    CsvKeysAreParameterKeys();
    CsvColumns();
    UnreadFields();
    ExtractFrame(rec, EarlyReads, LateReads, find, acqpText, methodText, parse);
    CompletedCsvMatches(rec, EarlyReads, LateReads, find, acqpText, methodText, parse);
  }

  /** The save-time read. */
  const SaveTimeRead := FieldRead("SaveTime", OwnerSaveTime, MethodText, ParseDate, Abort)

  /** With an early table that ends with the save-time read and a late table
      that does not write it, SaveTime holds the date parsed from the
      capture of the OWNER line unless the extraction failed. */
  lemma SaveTimeParsedWith(rec: Record, early: seq<FieldRead>, late: seq<FieldRead>,
                           find: Finder, acqpText: string, methodText: string, parse: DateParser)
    requires rec.csv.Keys <= rec.parameters.Keys
    requires early != [] && early[|early| - 1] == SaveTimeRead && "SaveTime" !in KeysOf(late)
    requires !ExtractWith(rec, early, late, find, acqpText, methodText, parse).outcome.Fatal?
    ensures var m := find(methodText, OwnerSaveTime);
      && m.Some? && parse(m.value.group1).Some?
      && var out := ExtractWith(rec, early, late, find, acqpText, methodText, parse).rec;
      && "SaveTime" in out.parameters
      && out.parameters["SaveTime"] == Time(parse(m.value.group1).value)
  {
    var run := RunReads(rec, early, find, acqpText, methodText, parse);
    RunReadsKeepsOthers(run.rec, late, find, acqpText, methodText, parse);
  }

  /** Unless the extraction failed, SaveTime holds the date parsed from the
      capture of the OWNER line of the method text. */
  lemma SaveTimeIsParsed(rec: Record, find: Finder, acqpText: string, methodText: string, parse: DateParser)
    requires rec.csv.Keys <= rec.parameters.Keys
    requires !Extract(rec, find, acqpText, methodText, parse).outcome.Fatal?
    ensures var m := find(methodText, OwnerSaveTime);
      && m.Some? && parse(m.value.group1).Some?
      && var out := Extract(rec, find, acqpText, methodText, parse).rec;
      && "SaveTime" in out.parameters
      && out.parameters["SaveTime"] == Time(parse(m.value.group1).value)
  {
    UnreadFields();
    SaveTimeParsedWith(rec, EarlyReads, LateReads, find, acqpText, methodText, parse);
  }

  /** PVver and Major PV ver are both '' (when the version record is not
      found) or both hold the captures; this holds for any search. */
  lemma VersionFieldsPaired(rec: Record, find: Finder, acqpText: string)
    ensures var p := VersionStep(rec, find, acqpText).parameters;
      && (p["PVver"] == Blank <==> find(acqpText, SwVersion).None? || find(acqpText, SwVersion).value.group1 == "")
      && (p["Major PV ver"] == Blank <==> find(acqpText, SwVersion).None? || find(acqpText, SwVersion).value.group2 == "")
      && (find(acqpText, SwVersion).Some? ==>
            p["PVver"] == Text(find(acqpText, SwVersion).value.group1)
            && p["Major PV ver"] == Text(find(acqpText, SwVersion).value.group2))
  {
  }

  /** With the version pattern, PVver and Major PV ver are both '' or both
      set: PVver reads `PV `, the major number, a dot and the rest of the
      version, and Major PV ver is that non-empty digit run. */
  lemma VersionFields(rec: Record, acqpText: string)
    ensures var p := VersionStep(rec, Search, acqpText).parameters;
      && (p["PVver"] == Blank <==> Search(acqpText, SwVersion).None?)
      && (p["Major PV ver"] == Blank <==> Search(acqpText, SwVersion).None?)
      && (p["PVver"] != Blank ==>
            p["PVver"].Text? && p["Major PV ver"].Text? && IsVersionCapture(p["PVver"].text, p["Major PV ver"].text))
  {
    VersionSearchCaptures(acqpText);
    VersionFieldsPaired(rec, Search, acqpText);
  }
}
