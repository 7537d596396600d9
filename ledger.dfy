/** ProcessFile's effect on the file system: the result ledger it appends
    to, and the move of the processed file from the source directory to
    the archive directory. Every I/O call of ProcessFile can throw; where
    one throws is a parameter, and the exception handler only logs, so a
    throw ends ProcessFile with whatever was done before it. */
module Ledger {
  import opened Text
  import opened Patterns
  import opened Extraction

  /** The files ProcessFile touches: whether the ledger exists and the
      strings written to it, in order (each followed by a line terminator;
      a string can itself hold a line break, see BarcodeSpansLines), and the
      source and archive directories as maps from file name to contents. */
  datatype Store = Store(
    ledgerExists: bool, ledger: seq<string>,
    source: map<string, string>, archive: map<string, string>)

  /** A ledger that exists starts with the header line; one that does not
      exist has no lines. */
  predicate WellFormed(st: Store) {
    if st.ledgerExists then |st.ledger| >= 1 && st.ledger[0] == Header else st.ledger == []
  }

  /** Where ProcessFile's I/O throws, if anywhere: reading the file, writing
      the header, the k-th append (counting from 0), or the move. */
  datatype Fault = NoFault | ReadFails | HeaderFails | AppendFails(k: nat) | MoveFails

  /** EnsureCsvHeader: None when it throws. */
  function EnsureHeader(st: Store, fails: bool): Option<Store> {
    if st.ledgerExists then Some(st)
    else if fails then None
    else Some(st.(ledgerExists := true, ledger := [Header]))
  }

  /** The CSV lines of the records, in order. */
  function Lines(rs: seq<Record>): (ls: seq<string>)
    ensures |ls| == |rs|
  {
    if |rs| == 0 then [] else Lines(rs[..|rs| - 1]) + [Line(rs[|rs| - 1])]
  }

  lemma {:induction false} LinesAt(rs: seq<Record>, k: nat)
    requires k < |rs|
    ensures Lines(rs)[k] == Line(rs[k])
    decreases |rs|
  {
    if k < |rs| - 1 {
      LinesAt(rs[..|rs| - 1], k);
    }
  }

  lemma LinesSnoc(rs: seq<Record>, k: nat)
    requires k < |rs|
    ensures Lines(rs[..k + 1]) == Lines(rs[..k]) + [Line(rs[k])]
  {
    assert rs[..k + 1][..k] == rs[..k];
  }

  /** Where each record of a file sits in Records. */
  lemma RecordsLayout(name: string, sc: Scraped)
    ensures var rs := Records(name, sc);
      var a := if sc.testTypeAb != "" then 1 else 0;
      var b := if sc.testTypeBg != "" then 1 else 0;
      && |rs| == (if a + b == 0 then 1 else a + b)
      && (a == 1 ==> rs[0] == Record(name, sc.barcode, sc.sendTime, sc.resultTime, sc.testTypeAb, sc.abResult))
      && (b == 1 ==> rs[a] == Record(name, sc.barcode, sc.sendTime, sc.resultTime, sc.testTypeBg, sc.bloodgroupResult))
      && (a + b == 0 ==> rs[0] == Record(name, sc.barcode, sc.sendTime, sc.resultTime, "NA", "NA"))
  {
  }

  /** How many of `count` appends complete before the fault, if any. */
  function Appended(count: nat, fault: Fault): (n: nat)
    ensures n <= count
    ensures n < count <==> fault.AppendFails? && fault.k < count
  {
    if fault.AppendFails? && fault.k < count then fault.k else count
  }

  /** The lines the ledger starts with once the header is ensured. */
  function Head(st: Store): seq<string> {
    if st.ledgerExists then st.ledger else [Header]
  }

  /** The store after ProcessFile has read the file `name` and found the
      records `rs` in it: ensure the header, append the lines until one
      append throws, then move the file unless something threw or the
      archive already holds that name. */
  function Apply(st: Store, name: string, rs: seq<Record>, fault: Fault): (r: Store)
    requires name in st.source
    ensures st.ledgerExists ==> r.ledgerExists && st.ledger <= r.ledger
    ensures r.source == st.source || r.source == st.source - {name}
    ensures name !in r.source ==> r.archive == st.archive[name := st.source[name]]
  {
    match EnsureHeader(st, fault == HeaderFails)
    case None => st
    case Some(st1) =>
      var n := Appended(|rs|, fault);
      var st2 := st1.(ledger := st1.ledger + Lines(rs[..n]));
      if n < |rs| || fault == MoveFails || name in st.archive then st2
      else st2.(source := st.source - {name}, archive := st.archive[name := st.source[name]])
  }

  /** The store after ProcessFile(name) with the given fault. */
  function Process(st: Store, name: string, fault: Fault): (r: Store)
    ensures name !in st.source ==> r == st
    ensures st.ledgerExists ==> r.ledgerExists && st.ledger <= r.ledger
    ensures r.source == st.source || r.source == st.source - {name}
  {
    if name !in st.source || fault == ReadFails then st
    else Apply(st, name, Extract(name, st.source[name]), fault)
  }

  /** A file that cannot be read changes nothing. */
  lemma ReadFailureChangesNothing(st: Store, name: string, fault: Fault)
    requires name !in st.source || fault == ReadFails
    ensures Process(st, name, fault) == st
  {
  }

  /** The header is written only when the ledger does not exist, and it is
      then the first line; otherwise the ledger is only appended to, with the
      lines of a prefix of the records. */
  lemma HeaderOnlyWhenAbsent(st: Store, name: string, rs: seq<Record>, fault: Fault)
    requires name in st.source
    ensures var r := Apply(st, name, rs, fault);
      r == st || r.ledger == Head(st) + Lines(rs[..Appended(|rs|, fault)])
    ensures var r := Apply(st, name, rs, fault);
      st.ledgerExists ==> r.ledgerExists && st.ledger <= r.ledger
    ensures var r := Apply(st, name, rs, fault);
      !st.ledgerExists && r.ledgerExists ==> r.ledger[0] == Header
  {
  }

  /** A well-formed ledger stays well-formed and only grows. */
  lemma ApplyKeepsLedger(st: Store, name: string, rs: seq<Record>, fault: Fault)
    requires name in st.source && WellFormed(st)
    ensures WellFormed(Apply(st, name, rs, fault))
    ensures st.ledger <= Apply(st, name, rs, fault).ledger
  {
  }

  /** The file leaves the source directory only after every one of its
      lines was appended, and it then lands in the archive unchanged. */
  lemma MoveOnlyAfterAllLines(st: Store, name: string, rs: seq<Record>, fault: Fault)
    requires name in st.source
    ensures var r := Apply(st, name, rs, fault);
      name !in r.source ==>
        r.ledger == Head(st) + Lines(rs) &&
        name !in st.archive && r.archive == st.archive[name := st.source[name]] &&
        r.source == st.source - {name}
  {
    assert rs[..|rs|] == rs;
  }

  /** A throw before the move leaves the file in the source directory and
      the archive as it was; so does an archive that already holds the name.
      (The header write happens, and can throw, only when the ledger is absent.) */
  lemma FaultKeepsFile(st: Store, name: string, rs: seq<Record>, fault: Fault)
    requires name in st.source
    requires (fault == HeaderFails && !st.ledgerExists) || fault == MoveFails || name in st.archive ||
      (fault.AppendFails? && fault.k < |rs|)
    ensures Apply(st, name, rs, fault).source == st.source
    ensures Apply(st, name, rs, fault).archive == st.archive
  {
  }

  /** The k-th append throwing leaves exactly the first k lines appended. */
  lemma AppendFaultStops(st: Store, name: string, rs: seq<Record>, k: nat)
    requires name in st.source && k < |rs| && st.ledgerExists
    ensures Apply(st, name, rs, AppendFails(k)).ledger == st.ledger + Lines(rs[..k])
  {
  }

  /** Without a throw, the file's lines follow the (ensured) header and the
      file moves to the archive. */
  lemma NoFaultOutcome(st: Store, name: string, rs: seq<Record>)
    requires name in st.source && name !in st.archive
    ensures Apply(st, name, rs, NoFault) == Store(
      true, Head(st) + Lines(rs), st.source - {name}, st.archive[name := st.source[name]])
  {
    assert rs[..|rs|] == rs;
  }

  /** The header write throwing ends ProcessFile with nothing changed. */
  lemma ApplyHeaderFails(st: Store, name: string, rs: seq<Record>, fault: Fault)
    requires name in st.source && EnsureHeader(st, fault == HeaderFails).None?
    ensures Apply(st, name, rs, fault) == st
  {
  }

  /** The k-th append throwing ends ProcessFile after the first k lines. */
  lemma ApplyAppendFails(st: Store, name: string, rs: seq<Record>, k: nat)
    requires name in st.source && k < |rs|
    ensures Apply(st, name, rs, AppendFails(k)) == st.(ledgerExists := true, ledger := Head(st) + Lines(rs[..k]))
  {
  }

  /** Once every line is appended, the file moves unless the move throws
      or the archive already holds the name. */
  lemma ApplyAllAppended(st: Store, name: string, rs: seq<Record>, fault: Fault)
    requires name in st.source && fault != HeaderFails
    requires !(fault.AppendFails? && fault.k < |rs|)
    ensures var st2 := st.(ledgerExists := true, ledger := Head(st) + Lines(rs));
      Apply(st, name, rs, fault) ==
        if fault == MoveFails || name in st.archive then st2
        else st2.(source := st.source - {name}, archive := st.archive[name := st.source[name]])
  {
    assert rs[..|rs|] == rs;
  }

  /** The lines appended for a file are those of its records, in order:
      antibody screening, then blood group, or the single "NA,NA" line. */
  lemma FileLines(name: string, text: string, k: nat)
    requires k < |Lines(Extract(name, text))|
    ensures Lines(Extract(name, text))[k] == Line(Extract(name, text)[k])
    ensures 1 <= |Lines(Extract(name, text))| <= 2
  {
    RecordsShape(name, Scrape(text));
    LinesAt(Extract(name, text), k);
  }

  /** The ledger: whether the result CSV exists and its lines, and the
      source and archive directories. */
  class ResultStore {
    var ledgerExists: bool
    var ledger: seq<string>
    var source: map<string, string>
    var archive: map<string, string>

    function State(): Store
      reads this
    {
      Store(ledgerExists, ledger, source, archive)
    }

    constructor (st: Store)
      ensures State() == st
    {
      ledgerExists, ledger, source, archive := st.ledgerExists, st.ledger, st.source, st.archive;
    }

    /** EnsureCsvHeader: creates the ledger with the header line when it does
        not exist; `fails` says whether that write throws. */
    method EnsureCsvHeader(fails: bool) returns (ok: bool)
      modifies this
      ensures ok == EnsureHeader(old(State()), fails).Some?
      ensures State() == if ok then EnsureHeader(old(State()), fails).value else old(State())
    {
      ok := true;
      if !ledgerExists {
        if fails {
          ok := false;
          return;
        }
        ledgerExists, ledger := true, [Header];
      }
    }

    /** File.AppendAllText(ResultCsv, line + NewLine): creates the ledger if
        needed and adds the line at its end. */
    method AppendLine(line: string)
      modifies this
      ensures State() == old(State()).(ledgerExists := true, ledger := old(ledger) + [line])
    {
      ledgerExists, ledger := true, ledger + [line];
    }

    /** The `written`-th append of ProcessFile, of the line of the record
        `rs[written]`, to a ledger that holds `before` and the lines of the
        records before it; it throws exactly when `fault` names it. */
    method AppendNext(ghost rs: seq<Record>, ghost before: seq<string>, record: Record, fault: Fault, written: nat)
      returns (ok: bool)
      requires written < |rs| && rs[written] == record
      requires ledger == before + Lines(rs[..written])
      modifies this
      ensures ok == (fault != AppendFails(written))
      ensures State() == if ok then old(State()).(ledgerExists := true, ledger := old(ledger) + [Line(record)]) else old(State())
      ensures ok ==> ledger == before + Lines(rs[..written + 1])
    {
      if fault == AppendFails(written) {
        return false;
      }
      AppendLine(Line(record));
      LinesSnoc(rs, written);
      ok := true;
    }

    /** The test lines of ProcessFile, from what was read out of the file:
        the antibody screening line when its test name was found, the blood
        group line when its test name was found, the "NA,NA" line when
        neither was; the first throw skips the rest. `ok` says that no
        append threw. */
    method WriteTestLines(name: string, sc: Scraped, fault: Fault) returns (ok: bool)
      requires ledgerExists
      modifies this
      ensures var rs := Records(name, sc);
        var n := Appended(|rs|, fault);
        ok == (n == |rs|) && State() == old(State()).(ledger := old(ledger) + Lines(rs[..n]))
    {
      ghost var rs := Records(name, sc);
      ghost var before := ledger;
      var written := 0;
      assert rs[..0] == [];
      RecordsLayout(name, sc);

      if sc.testTypeAb != "" {
        ok := AppendNext(rs, before, Record(name, sc.barcode, sc.sendTime, sc.resultTime, sc.testTypeAb, sc.abResult), fault, written);
        if !ok {
          return;
        }
        written := written + 1;
      }

      if sc.testTypeBg != "" {
        ok := AppendNext(rs, before, Record(name, sc.barcode, sc.sendTime, sc.resultTime, sc.testTypeBg, sc.bloodgroupResult), fault, written);
        if !ok {
          return;
        }
        written := written + 1;
      }

      if sc.testTypeAb == "" && sc.testTypeBg == "" {
        ok := AppendNext(rs, before, Record(name, sc.barcode, sc.sendTime, sc.resultTime, "NA", "NA"), fault, written);
        if !ok {
          return;
        }
        written := written + 1;
      }
      ok := true;
      assert rs[..written] == rs;
    }

    /** ProcessFile(name): read the file, ensure the header, append the
        file's lines, move the file to the archive; the first throw skips
        what is left. */
    method ProcessFile(name: string, fault: Fault)
      modifies this
      ensures State() == Process(old(State()), name, fault)
    {
      if name !in source || fault == ReadFails {
        return;
      }
      var text := source[name];
      var ok := EnsureCsvHeader(fault == HeaderFails);
      if !ok {
        return;
      }
      var sc := Scrape(text);
      ok := WriteTestLines(name, sc, fault);
      if ok && fault != MoveFails && name !in archive {
        source, archive := source - {name}, archive[name := text];
      }
    }
  }
}
