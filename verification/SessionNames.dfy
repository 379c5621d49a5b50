/** The names of session directories: the format "R%06lu_T%010lu" of
    src/platform/pros_recording_sink.cpp, and the paths built on it. */
module SessionNames {
  import opened Bytes
  import opened Decimal
  import opened Paths

  datatype SessionName = SessionName(storageSequence: nat, startTimeMs: nat)

  function Format(name: SessionName): string {
    "R" + Padded(name.storageSequence, 6) + "_T" + Padded(name.startTimeMs, 10)
  }

  datatype Parsed = NotAName | Name(name: SessionName)

  function Parse(s: string): Parsed {
    if |s| == 0 || s[0] != 'R' then NotAName
    else
      var n := DigitCount(s[1..]);
      var rest := s[1..][n..];
      if n == 0 || |rest| < 3 || rest[..2] != "_T" || DigitCount(rest[2..]) != |rest| - 2 then NotAName
      else
        assert rest[2..][..|rest| - 2] == rest[2..];
        Name(SessionName(Value(s[1..][..n]), Value(rest[2..])))
  }

  /** A directory's name gives back its storage sequence and start time. */
  lemma ParseOfFormat(name: SessionName)
    ensures Parse(Format(name)) == Name(name)
  {
    var a, b := Padded(name.storageSequence, 6), Padded(name.startTimeMs, 10);
    var s := Format(name);
    assert s[1..] == a + ("_T" + b);
    DigitCountOf(a, "_T" + b);
    assert s[1..][..|a|] == a;
    var rest := s[1..][|a|..];
    assert rest == "_T" + b;
    assert rest[..2] == "_T" && rest[2..] == b;
    DigitCountOf(b, "");
    assert b + "" == b;
    ValueOfPadded(name.storageSequence, 6);
    ValueOfPadded(name.startTimeMs, 10);
  }

  lemma FormatInjective(x: SessionName, y: SessionName)
    requires Format(x) == Format(y)
    ensures x == y
  {
    ParseOfFormat(x);
    ParseOfFormat(y);
  }

  // ---- Paths ----

  const FLIGHT_ROOT: string := "/usd/FLIGHT"
  const TEMPORARY: string := "/DATA.TMP"
  const COMMITTED: string := "/DATA.V5L"

  /** The buffers the source formats these names into. */
  const ROOT_BUFFER: nat := 64
  const DIRECTORY_BUFFER: nat := 128
  const PATH_BUFFER: nat := 160

  function DirectoryPath(root: string, storageSequence: nat, startTimeMs: nat): string {
    root + "/" + Format(SessionName(storageSequence, startTimeMs))
  }

  predicate IsArchive(path: string) {
    |path| >= |COMMITTED| && path[|path| - |COMMITTED|..] == COMMITTED
  }

  lemma PathKinds(directory: string)
    ensures IsArchive(directory + COMMITTED) && !IsArchive(directory + TEMPORARY)
  {
    assert (directory + COMMITTED)[|directory|..] == COMMITTED;
    assert (directory + TEMPORARY)[|directory|..] == TEMPORARY;
    assert TEMPORARY[8] != COMMITTED[8];
  }

  lemma PathsOfDirectories(d: string, e: string)
    ensures d + TEMPORARY == e + TEMPORARY ==> d == e
    ensures d + COMMITTED == e + COMMITTED ==> d == e
    ensures d + TEMPORARY != e + COMMITTED
  {
    PathKinds(d);
    PathKinds(e);
    if d + TEMPORARY == e + TEMPORARY {
      assert d == (d + TEMPORARY)[..|d|] == (e + TEMPORARY)[..|e|] == e;
    }
    if d + COMMITTED == e + COMMITTED {
      assert d == (d + COMMITTED)[..|d|] == (e + COMMITTED)[..|e|] == e;
    }
  }

  lemma DirectoryPathInjective(root: string, a: SessionName, b: SessionName)
    requires DirectoryPath(root, a.storageSequence, a.startTimeMs)
         == DirectoryPath(root, b.storageSequence, b.startTimeMs)
    ensures a == b
  {
    var p, q := DirectoryPath(root, a.storageSequence, a.startTimeMs),
            DirectoryPath(root, b.storageSequence, b.startTimeMs);
    assert p[|root| + 1..] == Format(a) && q[|root| + 1..] == Format(b);
    FormatInjective(a, b);
  }

  /** No name is ever cut by the buffer it is formatted into (a terminating zero included). */
  lemma NamesFitBuffers(robotId: string, storageSequence: uint32, startTimeMs: uint32)
    requires |robotId| <= 16
    ensures var root := FLIGHT_ROOT + "/" + robotId;
            var directory := DirectoryPath(root, storageSequence, startTimeMs);
            |root| < ROOT_BUFFER && |directory| < DIRECTORY_BUFFER
            && |directory + TEMPORARY| < PATH_BUFFER && |directory + COMMITTED| < PATH_BUFFER
  {
    assert Power10(10) == 10_000_000_000;
    PrintLength(storageSequence, 10);
    PrintLength(startTimeMs, 10);
  }

  // ---- The order of names ----

  lemma {:induction false} LessSnoc(x: string, y: string, c: char, d: char)
    requires |x| == |y|
    ensures Less(x + [c], y + [d]) <==> Less(x, y) || (x == y && c < d)
    decreases |x|
  {
    if x != "" {
      LessSnoc(x[1..], y[1..], c, d);
      assert (x + [c])[1..] == x[1..] + [c] && (y + [d])[1..] == y[1..] + [d];
      assert x == [x[0]] + x[1..] && y == [y[0]] + y[1..];
      Trichotomy(x, x);
    }
  }

  lemma {:induction false} LessBefore(x: string, y: string, u: string, v: string)
    requires |x| == |y|
    ensures Less(x + u, y + v) <==> Less(x, y) || (x == y && Less(u, v))
    decreases |x|
  {
    if x == "" {
      assert x + u == u && y + v == v;
    } else {
      LessBefore(x[1..], y[1..], u, v);
      assert (x + u)[1..] == x[1..] + u && (y + v)[1..] == y[1..] + v;
      assert x == [x[0]] + x[1..] && y == [y[0]] + y[1..];
    }
  }

  /** Numbers with the same number of digits are in the order of their digits. */
  lemma {:induction false} DigitsInOrder(a: string, b: string)
    requires AllDigits(a) && AllDigits(b) && |a| == |b|
    ensures Less(a, b) <==> Value(a) < Value(b)
    ensures a == b <==> Value(a) == Value(b)
    decreases |a|
  {
    if a != "" {
      var n := |a| - 1;
      DigitsInOrder(a[..n], b[..n]);
      LessSnoc(a[..n], b[..n], a[n], b[n]);
      assert a == a[..n] + [a[n]] && b == b[..n] + [b[n]];
    }
  }

  lemma PaddedLength(n: nat, width: nat)
    requires width > 0 && n < Power10(width)
    ensures |Padded(n, width)| == width
  {
    PrintLength(n, width);
  }

  lemma Powers()
    ensures Power10(6) == 1_000_000 && Power10(10) == 10_000_000_000
  {
    assert Power10(3) == 1000 && Power10(8) == 100_000_000;
  }

  lemma FormatParts(name: SessionName)
    requires name.storageSequence < 1_000_000 && name.startTimeMs < 10_000_000_000
    ensures var a, b := Padded(name.storageSequence, 6), Padded(name.startTimeMs, 10);
            && |a| == 6 && |b| == 10 && Format(name) == ("R" + a) + ("_T" + b) && |Format(name)| == 19
            && Value(a) == name.storageSequence && Value(b) == name.startTimeMs
  {
    hide Padded, Power10, Value;
    Powers();
    PaddedLength(name.storageSequence, 6);
    PaddedLength(name.startTimeMs, 10);
    ValueOfPadded(name.storageSequence, 6);
    ValueOfPadded(name.startTimeMs, 10);
    assert "R" + Padded(name.storageSequence, 6) + "_T" + Padded(name.startTimeMs, 10)
        == ("R" + Padded(name.storageSequence, 6)) + ("_T" + Padded(name.startTimeMs, 10));
  }

  /** Of the first million storage sequences, all names have nineteen characters, and a list of them sorted as text is
      sorted by sequence, and by start time where that is the same. */
  lemma NamesInOrder(x: SessionName, y: SessionName)
    requires x.storageSequence < 1_000_000 && y.storageSequence < 1_000_000
    requires x.startTimeMs < 10_000_000_000 && y.startTimeMs < 10_000_000_000
    ensures |Format(x)| == |Format(y)| == 19
    ensures Less(Format(x), Format(y))
       <==> x.storageSequence < y.storageSequence
            || (x.storageSequence == y.storageSequence && x.startTimeMs < y.startTimeMs)
  {
    hide Format, Padded, Less, Value;
    var a, b := Padded(x.storageSequence, 6), Padded(x.startTimeMs, 10);
    var c, d := Padded(y.storageSequence, 6), Padded(y.startTimeMs, 10);
    FormatParts(x);
    FormatParts(y);
    DigitsInOrder(a, c);
    DigitsInOrder(b, d);
    LessBefore("R" + a, "R" + c, "_T" + b, "_T" + d);
    LessBefore("R", "R", a, c);
    LessBefore("_T", "_T", b, d);
    Trichotomy("R", "R");
    Trichotomy("_T", "_T");
    assert "R" + a == "R" + c <==> a == c by { SameBehind("R", a, c); }
  }

  lemma SameBehind(x: string, a: string, b: string)
    ensures x + a == x + b <==> a == b
  {
    assert (x + a)[|x|..] == a && (x + b)[|x|..] == b;
  }
}
