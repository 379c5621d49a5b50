/** main of tools/v5l_inspect.cpp: its arguments, the paths it collects, what it prints and its exit
    status. The file system is given, and so is how a duration is printed in seconds. */
module Inspect {
  import opened Bytes
  import opened RecordingFile
  import opened RecordingEncoder
  import opened RecordingVerifier
  import opened RecordingRecovery
  import opened Json
  import opened Paths
  import opened FaultLists
  import opened InspectReport

  /** What a walk of a directory meets, with the extension std::filesystem gives the path. */
  datatype Entry = Entry(path: string, regular: bool, extension: string)

  /** An input that is no directory, one that cannot be listed, or the entries met before the end or
      the first error. */
  datatype Walk = NotDirectory | Unlistable | Listing(entries: seq<Entry>, failed: bool)

  datatype FileSystem = FileSystem(walk: string -> Walk, read: string -> Option<Reader>, seconds: nat -> string)

  /** What goes to the output and to the error stream. */
  datatype Streams = Streams(out: string, err: string)

  datatype Outcome = Outcome(text: Streams, status: nat)

  const USAGE: string := "Usage: v5l_inspect [--json] <file-or-directory> [...]\n"
  const NO_FILES: string := "No V5L/TMP recording files found.\n"

  // ---- Arguments ----

  function Inputs(args: seq<string>): seq<string> {
    if args == [] then []
    else Inputs(args[..|args| - 1]) + if args[|args| - 1] == "--json" then [] else [args[|args| - 1]]
  }

  /** Every argument but the flag is an input. */
  lemma {:induction false} InputsMean(args: seq<string>, x: string)
    ensures x in Inputs(args) <==> x in args && x != "--json"
    decreases |args|
  {
    if args != [] {
      InputsMean(args[..|args| - 1], x);
      assert args == args[..|args| - 1] + [args[|args| - 1]];
    }
  }

  method ReadArguments(args: seq<string>) returns (json: bool, inputs: seq<string>)
    ensures json == ("--json" in args) && inputs == Inputs(args)
  {
    json, inputs := false, [];
    for index := 0 to |args|
      invariant json == ("--json" in args[..index]) && inputs == Inputs(args[..index])
    {
      assert args[..index + 1][..index] == args[..index];
      if args[index] == "--json" {
        json := true;
      } else {
        inputs := inputs + [args[index]];
      }
    }
    assert args[..|args|] == args;
  }

  // ---- Collecting paths ----

  function Upper(c: char): char {
    if 'a' <= c <= 'z' then 'A' + (c - 'a') else c
  }

  function UpperText(s: string): string {
    seq(|s|, i requires 0 <= i < |s| => Upper(s[i]))
  }

  predicate IsRecording(e: Entry) {
    e.regular && (UpperText(e.extension) == ".V5L" || UpperText(e.extension) == ".TMP")
  }

  function Recordings(entries: seq<Entry>): seq<string> {
    if entries == [] then []
    else
      var before, last := Recordings(entries[..|entries| - 1]), entries[|entries| - 1];
      if IsRecording(last) then before + [last.path] else before
  }

  /** A regular file counts if its extension is V5L or TMP, in capitals or not. */
  lemma ExtensionMeans(e: Entry)
    ensures var x := e.extension;
            IsRecording(e)
            <==> && e.regular && |x| == 4 && x[0] == '.'
                 && ((x[1] in "Vv" && x[2] == '5' && x[3] in "Ll") || (x[1] in "Tt" && x[2] in "Mm" && x[3] in "Pp"))
  {
    var x, u := e.extension, UpperText(e.extension);
    if |x| == 4 {
      assert u == ".V5L" <==> u[0] == '.' && u[1] == 'V' && u[2] == '5' && u[3] == 'L';
      assert u == ".TMP" <==> u[0] == '.' && u[1] == 'T' && u[2] == 'M' && u[3] == 'P';
    }
  }

  /** The paths one input contributes. */
  function PathsOf(fs: FileSystem, input: string): seq<string> {
    match fs.walk(input)
    case NotDirectory => [input]
    case Unlistable => []
    case Listing(entries, _) => Recordings(entries)
  }

  predicate ScanFails(fs: FileSystem, input: string) {
    fs.walk(input).Unlistable? || (fs.walk(input).Listing? && fs.walk(input).failed)
  }

  function Collected(fs: FileSystem, inputs: seq<string>): seq<string> {
    if inputs == [] then [] else Collected(fs, inputs[..|inputs| - 1]) + PathsOf(fs, inputs[|inputs| - 1])
  }

  predicate AnyScanFails(fs: FileSystem, inputs: seq<string>) {
    exists input :: input in inputs && ScanFails(fs, input)
  }

  method FilterEntries(entries: seq<Entry>) returns (paths: seq<string>)
    ensures paths == Recordings(entries)
  {
    hide IsRecording;
    paths := [];
    for i := 0 to |entries|
      invariant paths == Recordings(entries[..i])
    {
      assert entries[..i + 1][..i] == entries[..i];
      if IsRecording(entries[i]) {
        paths := paths + [entries[i].path];
      }
    }
    assert entries[..|entries|] == entries;
  }

  lemma NoScan(fs: FileSystem)
    ensures !AnyScanFails(fs, [])
  {
  }

  lemma OneMoreScan(fs: FileSystem, inputs: seq<string>, input: string)
    ensures AnyScanFails(fs, inputs + [input]) <==> AnyScanFails(fs, inputs) || ScanFails(fs, input)
  {
    hide ScanFails;
    forall p ensures p in inputs + [input] <==> p in inputs || p == input {
    }
  }

  method CollectPaths(fs: FileSystem, inputs: seq<string>) returns (paths: seq<string>, scanError: bool)
    ensures paths == Collected(fs, inputs) && scanError == AnyScanFails(fs, inputs)
  {
    hide Recordings, AnyScanFails;
    paths, scanError := [], false;
    NoScan(fs);
    for i := 0 to |inputs|
      invariant paths == Collected(fs, inputs[..i])
      invariant scanError == AnyScanFails(fs, inputs[..i])
    {
      assert inputs[..i + 1][..i] == inputs[..i];
      assert inputs[..i + 1] == inputs[..i] + [inputs[i]];
      OneMoreScan(fs, inputs[..i], inputs[i]);
      match fs.walk(inputs[i]) {
        case NotDirectory => paths := paths + [inputs[i]];
        case Unlistable => scanError := true;
        case Listing(entries, failed) =>
          var found := FilterEntries(entries);
          paths := paths + found;
          if failed {
            scanError := true;
          }
      }
    }
    assert inputs[..|inputs|] == inputs;
  }

  // ---- Reporting ----

  function EntryJson(fs: FileSystem, path: string): Json {
    match fs.read(path)
    case None => IoErrorJson(path)
    case Some(reader) => ReportJson(path, Verify(reader), |reader.data|)
  }

  function EntriesJson(fs: FileSystem, paths: seq<string>): (entries: seq<Json>)
    ensures |entries| == |paths| && forall i :: 0 <= i < |paths| ==> entries[i] == EntryJson(fs, paths[i])
  {
    seq(|paths|, i requires 0 <= i < |paths| => EntryJson(fs, paths[i]))
  }

  predicate Unreadable(fs: FileSystem, path: string) {
    fs.read(path).None?
  }

  predicate Deficient(fs: FileSystem, path: string) {
    fs.read(path).Some? && !IntegrityPass(Verify(fs.read(path).value))
  }

  predicate AnyUnreadable(fs: FileSystem, paths: seq<string>) {
    exists p :: p in paths && Unreadable(fs, p)
  }

  predicate AnyDeficient(fs: FileSystem, paths: seq<string>) {
    exists p :: p in paths && Deficient(fs, p)
  }

  function ExitStatus(fs: FileSystem, paths: seq<string>, scanError: bool): nat {
    if scanError || AnyUnreadable(fs, paths) then 1 else if AnyDeficient(fs, paths) then 2 else 0
  }

  /** What the human mode prints of one file. */
  function HumanOn(fs: FileSystem, path: string): Streams {
    match fs.read(path)
    case None => Streams("", "FILE: " + path + "\nSTATUS: IO_ERROR\n\n")
    case Some(reader) => Streams(HumanText(path, Verify(reader), |reader.data|, fs.seconds), "")
  }

  function HumanAll(fs: FileSystem, paths: seq<string>): Streams {
    if paths == [] then Streams("", "")
    else
      var before, last := HumanAll(fs, paths[..|paths| - 1]), HumanOn(fs, paths[|paths| - 1]);
      Streams(before.out + last.out, before.err + last.err)
  }

  function Printed(fs: FileSystem, paths: seq<string>, json: bool): Streams {
    if json then Streams(Print(Array(EntriesJson(fs, paths))) + "\n", "") else HumanAll(fs, paths)
  }

  /** The whole program, as a function of its arguments and the file system. */
  function Inspected(fs: FileSystem, args: seq<string>): Outcome {
    var inputs := Inputs(args);
    var paths := Canonical(Collected(fs, inputs));
    if inputs == [] then Outcome(Streams("", USAGE), 1)
    else if paths == [] then Outcome(Streams("", NO_FILES), 1)
    else Outcome(Printed(fs, paths, "--json" in args), ExitStatus(fs, paths, AnyScanFails(fs, inputs)))
  }

  /** The JSON output up to and without its closing bracket. */
  function Unclosed(fs: FileSystem, paths: seq<string>): string {
    "[" + PrintElements(EntriesJson(fs, paths))
  }

  lemma OneMoreEntry(fs: FileSystem, paths: seq<string>, path: string)
    ensures Unclosed(fs, paths + [path])
         == Unclosed(fs, paths) + (if paths == [] then "" else ",") + Print(EntryJson(fs, path))
  {
    hide Print, PrintElements, EntryJson;
    assert EntriesJson(fs, paths + [path]) == EntriesJson(fs, paths) + [EntryJson(fs, path)];
    ElementsSnoc(EntriesJson(fs, paths), EntryJson(fs, path));
  }

  lemma OneMore(fs: FileSystem, paths: seq<string>, path: string)
    ensures AnyUnreadable(fs, paths + [path]) <==> AnyUnreadable(fs, paths) || Unreadable(fs, path)
    ensures AnyDeficient(fs, paths + [path]) <==> AnyDeficient(fs, paths) || Deficient(fs, path)
  {
    hide Unreadable, Deficient;
    forall p ensures p in paths + [path] <==> p in paths || p == path {
    }
  }

  lemma NoEntries(fs: FileSystem)
    ensures Unclosed(fs, []) == "["
  {
  }

  lemma ClosesArray(fs: FileSystem, paths: seq<string>)
    ensures Print(Array(EntriesJson(fs, paths))) + "\n" == Unclosed(fs, paths) + "]\n"
  {
    hide PrintElements, EntriesJson;
    PrintsArray(EntriesJson(fs, paths));
  }

  method ReportOn(fs: FileSystem, path: string, json: bool) returns (text: Streams, ioError: bool, failure: bool)
    ensures text == if json then Streams(Print(EntryJson(fs, path)), "") else HumanOn(fs, path)
    ensures ioError == Unreadable(fs, path) && failure == Deficient(fs, path)
  {
    hide Print, ReportJson, IoErrorJson, Verify, IntegrityPass, HumanText;
    var file := fs.read(path);
    if file.None? {
      if json {
        var entry := PrintIoError(path);
        return Streams(entry, ""), true, false;
      }
      return Streams("", "FILE: " + path + "\nSTATUS: IO_ERROR\n\n"), true, false;
    }
    var report := VerifyRecording(file.value);
    var entry: string;
    if json {
      entry := PrintJson(path, report, |file.value.data|);
    } else {
      entry := PrintHuman(path, report, |file.value.data|, fs.seconds);
    }
    return Streams(entry, ""), false, !IntegrityPass(report);
  }

  /** What is printed before the closing bracket. */
  function Started(fs: FileSystem, paths: seq<string>, json: bool): Streams {
    if json then Streams(Unclosed(fs, paths), "") else HumanAll(fs, paths)
  }

  function Appended(a: Streams, separator: string, b: Streams): Streams {
    Streams(a.out + separator + b.out, a.err + b.err)
  }

  lemma OneMoreFile(fs: FileSystem, paths: seq<string>, path: string, json: bool)
    ensures Started(fs, paths + [path], json)
         == Appended(Started(fs, paths, json), if json && paths != [] then "," else "",
                     if json then Streams(Print(EntryJson(fs, path)), "") else HumanOn(fs, path))
  {
    hide Print, Unclosed, EntryJson, HumanOn;
    OneMoreEntry(fs, paths, path);
    assert (paths + [path])[..|paths|] == paths;
  }

  method ReportAll(fs: FileSystem, paths: seq<string>, json: bool, scanError: bool) returns (text: Streams, status: nat)
    ensures text == Printed(fs, paths, json)
    ensures status == ExitStatus(fs, paths, scanError)
    ensures status == 1 <==> scanError || AnyUnreadable(fs, paths)
    ensures status == 2 <==> !scanError && !AnyUnreadable(fs, paths) && AnyDeficient(fs, paths)
    ensures status == 0 <==> !scanError && !AnyUnreadable(fs, paths) && !AnyDeficient(fs, paths)
  {
    hide Print, Started, EntriesJson, EntryJson, HumanOn, AnyUnreadable, AnyDeficient, Unreadable, Deficient;
    var anyIoError, anyIntegrityFailure := scanError, false;
    text := Streams(if json then "[" else "", "");
    var firstJson := true;
    NothingStarted(fs, json);
    NothingFails(fs);
    for i := 0 to |paths|
      invariant text == Started(fs, paths[..i], json)
      invariant json ==> firstJson == (i == 0)
      invariant anyIoError == (scanError || AnyUnreadable(fs, paths[..i]))
      invariant anyIntegrityFailure == AnyDeficient(fs, paths[..i])
    {
      OneMoreFile(fs, paths[..i], paths[i], json);
      OneMore(fs, paths[..i], paths[i]);
      assert paths[..i + 1] == paths[..i] + [paths[i]];
      var entry, ioError, failure := ReportOn(fs, paths[i], json);
      anyIoError := anyIoError || ioError;
      anyIntegrityFailure := anyIntegrityFailure || failure;
      text := Appended(text, if json && !firstJson then "," else "", entry);
      firstJson := false;
    }
    assert paths[..|paths|] == paths;
    if json {
      text := text.(out := text.out + "]\n");
    }
    AllStarted(fs, paths, json);
    status := if anyIoError then 1 else if anyIntegrityFailure then 2 else 0;
  }

  lemma NothingStarted(fs: FileSystem, json: bool)
    ensures Started(fs, [], json) == Streams(if json then "[" else "", "")
  {
    NoEntries(fs);
  }

  lemma AllStarted(fs: FileSystem, paths: seq<string>, json: bool)
    ensures var started := Started(fs, paths, json);
            Printed(fs, paths, json) == if json then started.(out := started.out + "]\n") else started
  {
    hide Print, Unclosed, EntriesJson, HumanAll;
    ClosesArray(fs, paths);
  }

  method Run(fs: FileSystem, args: seq<string>) returns (text: Streams, status: nat)
    ensures Outcome(text, status) == Inspected(fs, args)
  {
    hide Print, Printed, Collected, AnyScanFails, ExitStatus, Inputs, Sorted, Compacted;
    var json, inputs := ReadArguments(args);
    if inputs == [] {
      return Streams("", USAGE), 1;
    }
    var paths, scanError := CollectPaths(fs, inputs);
    paths := Sort(paths);
    paths := Unique(paths);
    if paths == [] {
      return Streams("", NO_FILES), 1;
    }
    text, status := ReportAll(fs, paths, json, scanError);
  }

  lemma NothingFails(fs: FileSystem)
    ensures !AnyUnreadable(fs, []) && !AnyDeficient(fs, [])
  {
  }

  // ---- The whole output ----

  /** Whatever bytes the paths and the header texts hold, the JSON output is a well-formed document: an
      array with one entry per distinct path, in ascending order, each starting with the path itself and
      its status. */
  lemma OutputRoundTrip(fs: FileSystem, args: seq<string>)
    requires "--json" in args && Collected(fs, Inputs(args)) != []
    ensures var paths := Canonical(Collected(fs, Inputs(args)));
            && ParseDocument(Inspected(fs, args).text.out) == Holds(Array(EntriesJson(fs, paths)))
            && StrictlyAscending(paths) && Listed(paths) == Listed(Collected(fs, Inputs(args)))
  {
    hide Collected, Print, Canonical, EntriesJson, Listed, ParseDocument;
    var collected := Collected(fs, Inputs(args));
    CanonicalKeeps(collected);
    EmptyListed(collected);
    EmptyListed(Canonical(collected));
    NoInputs(fs);
    DocumentRoundTrip(Array(EntriesJson(fs, Canonical(collected))));
  }

  lemma NoInputs(fs: FileSystem)
    ensures Collected(fs, []) == []
  {
  }

  /** Each entry says which file it is of, and whether it was unreadable, deficient or passed; that of a
      readable file names its faults and the texts of its header. */
  lemma EntryTells(fs: FileSystem, path: string)
    ensures var entry := EntryJson(fs, path);
            && entry.Object? && |entry.members| >= 2 && entry.members[0] == Member("path", Text(path))
            && entry.members[1] == Member("status", Text(if Unreadable(fs, path) then "IO_ERROR"
                                                         else if Deficient(fs, path) then "REPEAT" else "PASS"))
    ensures fs.read(path).Some? ==>
              var report := Verify(fs.read(path).value); var members := EntryJson(fs, path).members;
              && |members| == 34
              && members[4] == Member("faults", Array(Texts(FaultNames(report.faultBits))))
              && members[5] == Member("robot_id", Text(FixedText(report.header.robotId)))
              && members[6] == Member("software_version", Text(FixedText(report.header.softwareVersion)))
              && members[7] == Member("source_commit", Text(FixedText(report.header.sourceCommit)))
  {
    hide Verify, FixedText, FaultNames, Unsigned;
    if fs.read(path).Some? {
      ReportMembers(path, Verify(fs.read(path).value), |fs.read(path).value.data|);
    }
  }

  lemma ReportMembers(path: string, r: Report, size: nat)
    ensures var members := ReportJson(path, r, size).members;
            && |members| == 34
            && members[0] == Member("path", Text(path)) && members[1] == Member("status", Text(Status(r)))
            && members[4] == Member("faults", FaultsJson(r.faultBits))
            && members[5] == Member("robot_id", Text(FixedText(r.header.robotId)))
            && members[6] == Member("software_version", Text(FixedText(r.header.softwareVersion)))
            && members[7] == Member("source_commit", Text(FixedText(r.header.sourceCommit)))
  {
    hide FixedText, FaultsJson, Unsigned, Status, InspectReport.Format, Sequences, Hashes, Configuration,
         InspectReport.Counted, Extent;
    PartLengths(path, r, size);
    var verdict, identity := Verdict(path, r), Identity(r.header);
    var members := ReportJson(path, r, size).members;
    assert members[..5] == verdict && members[5..9] == identity;
    assert members[5] == identity[0] && members[6] == identity[1] && members[7] == identity[2];
  }

  /** The program ends with status 0 exactly if it was given inputs, could list every directory, found some file,
      and could read every one and found it to pass; with 2 exactly if only this last is missing; else with 1. */
  lemma ExitMeans(fs: FileSystem, args: seq<string>)
    ensures var inputs := Inputs(args); var found := Collected(fs, inputs); var status := Inspected(fs, args).status;
            var worked := && inputs != [] && found != [] && (forall i :: i in inputs ==> !ScanFails(fs, i))
                          && (forall p :: p in found ==> fs.read(p).Some?);
            var passed := forall p :: p in found ==> fs.read(p).Some? ==> IntegrityPass(Verify(fs.read(p).value));
            && (status == 0 <==> worked && passed) && (status == 2 <==> worked && !passed) && (status == 1 <==> !worked)
  {
    hide Collected, Inputs, Canonical, ScanFails, Printed, IntegrityPass, Verify;
    var found := Collected(fs, Inputs(args));
    CanonicalKeeps(found);
    EmptyListed(found);
    EmptyListed(Canonical(found));
    SameListed(found, Canonical(found));
    NoInputs(fs);
  }

  lemma SameListed(a: seq<string>, b: seq<string>)
    requires Listed(a) == Listed(b)
    ensures forall p :: p in a <==> p in b
  {
    forall p ensures p in a <==> p in b {
      assert p in a <==> p in Listed(a);
      assert p in b <==> p in Listed(b);
    }
  }

  // ---- Order does not matter ----

  lemma {:induction false} PathsCollected(fs: FileSystem, inputs: seq<string>)
    ensures forall p :: p in Collected(fs, inputs) <==> exists input :: input in inputs && p in PathsOf(fs, input)
    decreases |inputs|
  {
    hide PathsOf;
    if inputs != [] {
      var init, last := inputs[..|inputs| - 1], inputs[|inputs| - 1];
      PathsCollected(fs, init);
      assert inputs == init + [last];
      forall p ensures p in Collected(fs, inputs) <==> exists input :: input in inputs && p in PathsOf(fs, input) {
        if p in Collected(fs, init) {
          var input :| input in init && p in PathsOf(fs, input);
          assert input in inputs;
        }
      }
    }
  }

  lemma {:induction false} RecordingsMean(entries: seq<Entry>)
    ensures forall p :: p in Recordings(entries) <==> exists e :: e in entries && IsRecording(e) && e.path == p
    decreases |entries|
  {
    hide IsRecording;
    if entries != [] {
      var init, last := entries[..|entries| - 1], entries[|entries| - 1];
      RecordingsMean(init);
      assert entries == init + [last];
      forall p ensures p in Recordings(entries) <==> exists e :: e in entries && IsRecording(e) && e.path == p {
        if p in Recordings(init) {
          var e :| e in init && IsRecording(e) && e.path == p;
          assert e in entries;
        }
        if e :| e in entries && IsRecording(e) && e.path == p {
          assert e in init || e == last;
        }
      }
    }
  }

  /** A path is collected exactly if it is an input that is no directory, or that of a recording met in a directory
      that is one. */
  lemma CollectedMeans(fs: FileSystem, inputs: seq<string>, p: string)
    ensures p in Collected(fs, inputs)
       <==> (p in inputs && fs.walk(p).NotDirectory?)
            || exists input, e :: && input in inputs && fs.walk(input).Listing? && e in fs.walk(input).entries
                                  && IsRecording(e) && e.path == p
  {
    hide IsRecording, Collected, Recordings;
    PathsCollected(fs, inputs);
    forall input | input in inputs && fs.walk(input).Listing?
      ensures p in Recordings(fs.walk(input).entries)
         <==> exists e :: e in fs.walk(input).entries && IsRecording(e) && e.path == p
    {
      RecordingsMean(fs.walk(input).entries);
    }
  }

  /** Files read alike are reported alike. */
  lemma {:induction false} SameReports(fs: FileSystem, fs': FileSystem, paths: seq<string>)
    requires fs.seconds == fs'.seconds && forall p :: p in paths ==> fs.read(p) == fs'.read(p)
    ensures EntriesJson(fs, paths) == EntriesJson(fs', paths) && HumanAll(fs, paths) == HumanAll(fs', paths)
    ensures AnyUnreadable(fs, paths) == AnyUnreadable(fs', paths) && AnyDeficient(fs, paths) == AnyDeficient(fs', paths)
    decreases |paths|
  {
    hide ReportJson, IoErrorJson, HumanText, Verify, IntegrityPass;
    forall p | p in paths
      ensures EntryJson(fs, p) == EntryJson(fs', p) && Unreadable(fs, p) == Unreadable(fs', p)
      ensures Deficient(fs, p) == Deficient(fs', p)
    {
    }
    if paths != [] {
      SameReports(fs, fs', paths[..|paths| - 1]);
    }
  }

  /** Two runs whose collected paths form the same set of files, read alike, print the same report and
      end with the same status: whatever the inputs were and in whatever order, whether a file was named
      or found in a directory, however the directories were walked, and wherever --json stood. */
  lemma OrderIrrelevant(fs: FileSystem, args: seq<string>, fs': FileSystem, args': seq<string>)
    requires "--json" in args <==> "--json" in args'
    requires Listed(Collected(fs, Inputs(args))) == Listed(Collected(fs', Inputs(args')))
    requires AnyScanFails(fs, Inputs(args)) == AnyScanFails(fs', Inputs(args'))
    requires fs.seconds == fs'.seconds && forall p :: p in Collected(fs, Inputs(args)) ==> fs.read(p) == fs'.read(p)
    ensures var r, r' := Inspected(fs, args), Inspected(fs', args');
            && r.text.out == r'.text.out && r.status == r'.status
            && ((Inputs(args) == [] <==> Inputs(args') == []) ==> r == r')
  {
    hide Collected, Inputs, Print, EntriesJson, HumanAll, Canonical, AnyScanFails, AnyUnreadable, AnyDeficient;
    var collected, collected' := Collected(fs, Inputs(args)), Collected(fs', Inputs(args'));
    var paths := Canonical(collected);
    CanonicalOfSet(collected, collected');
    CanonicalKeeps(collected);
    forall p | p in paths ensures fs.read(p) == fs'.read(p) {
      assert p in Listed(paths);
    }
    SameReports(fs, fs', paths);
    NoInputs(fs);
    NoInputs(fs');
    EmptyListed(collected);
    EmptyListed(collected');
    EmptyListed(paths);
  }

  /** In particular, the order and the repetition of the inputs do not matter. */
  lemma InputOrderIrrelevant(fs: FileSystem, args: seq<string>, args': seq<string>)
    requires "--json" in args <==> "--json" in args'
    requires forall a :: a in Inputs(args) <==> a in Inputs(args')
    ensures Inspected(fs, args) == Inspected(fs, args')
  {
    hide Collected, Inputs, PathsOf, ScanFails, Inspected;
    var inputs, inputs' := Inputs(args), Inputs(args');
    PathsCollected(fs, inputs);
    PathsCollected(fs, inputs');
    SameMembers(inputs, inputs');
    assert forall p :: p in Collected(fs, inputs) <==> p in Collected(fs, inputs');
    OrderIrrelevant(fs, args, fs, args');
  }

  lemma SameMembers(a: seq<string>, b: seq<string>)
    requires forall x :: x in a <==> x in b
    ensures a == [] <==> b == []
  {
    if a != [] {
      assert a[0] in b;
    }
    if b != [] {
      assert b[0] in a;
    }
  }

  /** A finished recording of fewer than 2^32 frames passes exactly when it has frames, none was dropped,
      and they run without a gap, a step back in time or a frame of another run. */
  lemma PassMeans(header: FileHeader, batches: seq<seq<Frame>>, drops: uint32)
    requires Standard(header) && AllAppendable(batches) && AllGoodBatches(batches) && |Flatten(batches)| < 0x1_0000_0000
    ensures var frames := Flatten(batches);
            IntegrityPass(Verify(InMemory(RecordingBytes(header, batches, drops))))
            <==> && batches != [] && drops == 0
                 && !HasGap(frames) && !HasRegression(frames) && !HasForeignFrame(header.runIdHash, frames)
  {
    hide *;
    var frames := Flatten(batches);
    InMemoryReliable(RecordingBytes(header, batches, drops));
    FinishedRecordingComplete(InMemory(RecordingBytes(header, batches, drops)), header, batches, drops);
    NoFaultMeans(header.runIdHash, frames, batches == []);
    PassParts(Verify(InMemory(RecordingBytes(header, batches, drops))));
  }

  lemma InMemoryReliable(data: seq<Byte>)
    ensures Reliable(InMemory(data)) && InMemory(data).data == data
  {
  }

  lemma PassParts(r: Report)
    ensures IntegrityPass(r) <==> r.complete && r.faultBits == 0 && r.producerDrops == 0
  {
  }

  lemma NoFaultMeans(run: uint32, frames: seq<Frame>, none: bool)
    ensures FinalFaults(run, frames, false, none) == 0
       <==> !none && !HasGap(frames) && !HasRegression(frames) && !HasForeignFrame(run, frames)
  {
    hide HasForeignFrame, HasGap, HasRegression;
  }
}
