/**
 * The object key under which `save` stores an upload:
 * `path.join(path.join(folder, "<year>/<month0>/<day>"), name + ext)`,
 * with ParseKey as its inverse.
 */
module ObjectKey {
  import opened Wrappers
  import opened Decimal
  import opened NodePath

  /** The save date as `Date` reports it: getFullYear(), the 0-based getMonth() and getDate(). */
  datatype CalendarDate = CalendarDate(year: int, month0: int, day: int)

  predicate IsLeapYear(year: int) {
    (year % 4 == 0 && year % 100 != 0) || year % 400 == 0
  }

  function DaysInMonth(year: int, month0: int): (n: int)
    requires 0 <= month0 < 12
    ensures 28 <= n <= 31
  {
    if month0 == 1 then (if IsLeapYear(year) then 29 else 28)
    else if month0 == 3 || month0 == 5 || month0 == 8 || month0 == 10 then 30
    else 31
  }

  /** What `Date` guarantees of the fields it reports. */
  predicate ValidDate(d: CalendarDate) {
    0 <= d.month0 < 12 && 1 <= d.day <= DaysInMonth(d.year, d.month0)
  }

  /** The texts of the three date fields, in key order. */
  function DatePieces(d: CalendarDate): (pieces: seq<string>) {
    [IntToString(d.year), IntToString(d.month0), IntToString(d.day)]
  }

  /** The text of an integer is a path piece that normalisation keeps. */
  lemma IntPieceIsNormal(n: int)
    ensures Sep !in IntToString(n)
    ensures Split(IntToString(n)) == [IntToString(n)]
    ensures IntToString(n) != "." && IntToString(n) != ".."
  {
    var s := IntToString(n);
    assert s[0] == '-' || IsDigit(s[0]);
    SplitNoSep(s);
  }

  /** `util.format('%s/%s/%s', year, month, day)`; its pieces are the three numbers. */
  function DatePath(d: CalendarDate): (p: string)
    ensures Split(p) == DatePieces(d)
    ensures IsNormalRelative(p)
  {
    var y, m, dd := IntToString(d.year), IntToString(d.month0), IntToString(d.day);
    IntPieceIsNormal(d.year);
    IntPieceIsNormal(d.month0);
    IntPieceIsNormal(d.day);
    SplitAppend(y, m + [Sep] + dd);
    SplitAppend(m, dd);
    assert y + [Sep] + m + [Sep] + dd == y + [Sep] + (m + [Sep] + dd);
    var p := y + [Sep] + m + [Sep] + dd;
    assert forall i :: 0 <= i < 3 ==> NormalPiece(Split(p), i);
    p
  }

  /** The pieces a configured folder contributes to a key ("" contributes none). */
  function FolderPieces(folder: string): (pieces: seq<string>) {
    if folder == [] then [] else Split(folder)
  }

  /** The pieces a file name contributes to a key ("" contributes none). */
  function NamePieces(name: string): (pieces: seq<string>) {
    if name == [] then [] else [name]
  }

  /** A folder for which `path.join` needs no normalisation. */
  predicate FolderOk(folder: string) {
    folder == [] || IsNormal(folder)
  }

  /** An original name whose base name `path.join` keeps as it is. */
  predicate NameOk(originalName: string) {
    var b := BaseName(originalName);
    b != "." && b != ".."
  }

  lemma BaseNameIsPiece(originalName: string)
    requires NameOk(originalName)
    ensures BaseName(originalName) == [] || IsNormalRelative(BaseName(originalName))
  {
    var b := BaseName(originalName);
    SplitNoSep(b);
    if b != [] {
      assert NormalPiece(Split(b), 0);
    }
  }

  lemma JoinFolderPieces(folder: string, p: string)
    requires FolderOk(folder) && IsNormalRelative(p)
    ensures Split(Join(folder, p)) == FolderPieces(folder) + Split(p)
  {
    NormalNotEmpty(p);
  }

  lemma JoinNamePieces(dir: string, name: string)
    requires IsNormal(dir) && (name == [] || IsNormalRelative(name)) && Sep !in name
    ensures Split(Join(dir, name)) == Split(dir) + NamePieces(name)
  {
    NormalNotEmpty(dir);
    SplitNoSep(name);
  }

  /** The pieces of `path.join(path.join(folder, datePath), fileName)`. */
  lemma JoinedKeyPieces(folder: string, date: CalendarDate, originalName: string)
    requires FolderOk(folder) && NameOk(originalName)
    ensures BaseName(originalName) == [] || IsNormalRelative(BaseName(originalName))
    ensures Split(Join(Join(folder, DatePath(date)), NameWithExt(originalName)))
         == FolderPieces(folder) + DatePieces(date) + NamePieces(BaseName(originalName))
  {
    var datePath := DatePath(date);
    JoinFolderPieces(folder, datePath);
    BaseNameIsPiece(originalName);
    JoinNamePieces(Join(folder, datePath), NameWithExt(originalName));
  }

  /**
   * The key of an upload: the folder's pieces (if any), then year, 0-based
   * month and day, then the base name of the original file name (if any).
   */
  function TargetKey(folder: string, date: CalendarDate, originalName: string): (key: string)
    requires FolderOk(folder) && NameOk(originalName)
    ensures Split(key) == FolderPieces(folder) + DatePieces(date) + NamePieces(BaseName(originalName))
    ensures IsNormal(key)
  {
    JoinedKeyPieces(folder, date, originalName);
    Join(Join(folder, DatePath(date)), NameWithExt(originalName))
  }

  /** What a key says about the upload it names. */
  datatype KeyParts = KeyParts(folder: string, date: CalendarDate, fileName: string)

  /**
   * Reads a key as folder, year, month, day and file name: the last four
   * pieces are the date and the name, the pieces before them the folder.
   */
  function ParseKey(key: string): (parts: Option<KeyParts>) {
    var pieces := Split(key);
    var n := |pieces|;
    if n < 4 then None
    else
      match (ParseInt(pieces[n - 4]), ParseInt(pieces[n - 3]), ParseInt(pieces[n - 2]))
      case (Some(y), Some(m), Some(d)) =>
        var folder := if n == 4 then [] else JoinPieces(pieces[..n - 4]);
        Some(KeyParts(folder, CalendarDate(y, m, d), pieces[n - 1]))
      case _ => None
  }

  /** ParseKey reads the date and name off the last four pieces and joins the rest. */
  lemma ParseKeyPieces(key: string, folderPieces: seq<string>, date: CalendarDate, name: string)
    requires Split(key) == folderPieces + DatePieces(date) + [name]
    ensures ParseKey(key) == Some(KeyParts(
      if folderPieces == [] then [] else JoinPieces(folderPieces), date, name))
  {
    var pieces := Split(key);
    var n := |pieces|;
    assert pieces[n - 4] == IntToString(date.year);
    assert pieces[n - 3] == IntToString(date.month0);
    assert pieces[n - 2] == IntToString(date.day);
    assert pieces[..n - 4] == folderPieces;
    IntToStringInverse(date.year);
    IntToStringInverse(date.month0);
    IntToStringInverse(date.day);
  }

  /** A key gives back the folder, the date and the base name it was made from. */
  lemma ParseTargetKey(folder: string, date: CalendarDate, originalName: string)
    requires FolderOk(folder) && NameOk(originalName) && BaseName(originalName) != []
    ensures ParseKey(TargetKey(folder, date, originalName))
         == Some(KeyParts(folder, date, BaseName(originalName)))
  {
    var key := TargetKey(folder, date, originalName);
    ParseKeyPieces(key, FolderPieces(folder), date, BaseName(originalName));
    if folder != [] {
      JoinSplit(folder);
    }
  }

  /** Two uploads into one folder share a key exactly when they agree on date and base name. */
  lemma KeyDeterminesUpload(folder: string, d1: CalendarDate, n1: string, d2: CalendarDate, n2: string)
    requires FolderOk(folder) && NameOk(n1) && NameOk(n2)
    ensures TargetKey(folder, d1, n1) == TargetKey(folder, d2, n2) <==> d1 == d2 && BaseName(n1) == BaseName(n2)
  {
    var k1, k2 := TargetKey(folder, d1, n1), TargetKey(folder, d2, n2);
    if k1 == k2 {
      SameKeyPieces(FolderPieces(folder), d1, BaseName(n1), d2, BaseName(n2));
    }
    if d1 == d2 && BaseName(n1) == BaseName(n2) {
      assert Split(k1) == Split(k2);
      JoinSplit(k1);
      JoinSplit(k2);
    }
  }

  /** Equal piece lists after a common folder mean equal dates and equal names. */
  lemma SameKeyPieces(fp: seq<string>, d1: CalendarDate, b1: string, d2: CalendarDate, b2: string)
    requires fp + DatePieces(d1) + NamePieces(b1) == fp + DatePieces(d2) + NamePieces(b2)
    ensures d1 == d2 && b1 == b2
  {
    var p1 := fp + DatePieces(d1) + NamePieces(b1);
    var p2 := fp + DatePieces(d2) + NamePieces(b2);
    var n := |fp|;
    assert |NamePieces(b1)| == |NamePieces(b2)|;
    assert p1[n..n + 3] == DatePieces(d1);
    assert p2[n..n + 3] == DatePieces(d2);
    assert p1[n + 3..] == NamePieces(b1);
    assert p2[n + 3..] == NamePieces(b2);
    IntToStringInjective(d1.year, d2.year);
    IntToStringInjective(d1.month0, d2.month0);
    IntToStringInjective(d1.day, d2.day);
    if b1 != [] {
      assert NamePieces(b1)[0] == b1;
    }
  }

  /**
   * The piece after the year in every key is the 0-based month, so it reads
   * as a number from 0 to 11; with a non-empty base name, ParseKey reports
   * that month too.
   */
  lemma KeyMonthZeroBased(folder: string, date: CalendarDate, originalName: string)
    requires ValidDate(date)
    requires FolderOk(folder) && NameOk(originalName)
    ensures var pieces := Split(TargetKey(folder, date, originalName));
      var n := |FolderPieces(folder)|;
      n + 1 < |pieces| && ParseInt(pieces[n + 1]) == Some(date.month0) && 0 <= date.month0 <= 11
    ensures BaseName(originalName) != [] ==>
      var parts := ParseKey(TargetKey(folder, date, originalName));
      parts.Some? && parts.value.date.month0 == date.month0 && 0 <= parts.value.date.month0 <= 11
  {
    var pieces := Split(TargetKey(folder, date, originalName));
    var n := |FolderPieces(folder)|;
    assert pieces[n + 1] == IntToString(date.month0);
    IntToStringInverse(date.month0);
    if BaseName(originalName) != [] {
      ParseTargetKey(folder, date, originalName);
    }
  }

  /** A key never starts and never ends with a separator when the folder is relative. */
  lemma KeyHasNoOuterSeps(folder: string, date: CalendarDate, originalName: string)
    requires FolderOk(folder) && NameOk(originalName)
    requires folder == [] || Split(folder)[0] != []
    ensures var key := TargetKey(folder, date, originalName);
      key != [] && key[0] != Sep && key[|key| - 1] != Sep
  {
    var key := TargetKey(folder, date, originalName);
    NormalNotEmpty(key);
    IntPieceIsNormal(date.year);
    var pieces := FolderPieces(folder) + DatePieces(date) + NamePieces(BaseName(originalName));
    assert pieces[0] == if folder == [] then IntToString(date.year) else Split(folder)[0];
    FirstPieceNotEmpty(key);
  }

  /** Saving "photo.png" on 7 March 2024 without a folder uses the key "2024/2/7/photo.png". */
  lemma MarchSeventhKey()
    ensures TargetKey("", CalendarDate(2024, 2, 7), "photo.png") == "2024/2/7/photo.png"
  {
    var date := CalendarDate(2024, 2, 7);
    var pieces := ["2024", "2", "7", "photo.png"];
    ExampleDatePieces();
    ExampleBaseName();
    var key := TargetKey("", date, "photo.png");
    assert Split(key) == pieces;
    KeyFromPieces(key, pieces);
    ExampleKeyText();
  }

  lemma KeyFromPieces(key: string, pieces: seq<string>)
    requires Split(key) == pieces
    ensures |pieces| >= 1 && key == JoinPieces(pieces)
  {
    JoinSplit(key);
  }

  lemma ExampleDatePieces()
    ensures DatePieces(CalendarDate(2024, 2, 7)) == ["2024", "2", "7"]
  {
    YearText();
    assert IntToString(2) == "2" && IntToString(7) == "7";
  }

  lemma ExampleBaseName()
    ensures BaseName("photo.png") == "photo.png"
  {
    assert Sep !in "photo.png";
    BaseNameOfPiece("photo.png");
  }

  lemma ExampleKeyText()
    ensures JoinPieces(["2024", "2", "7", "photo.png"]) == "2024/2/7/photo.png"
  {
    var pieces := ["2024", "2", "7", "photo.png"];
    assert pieces[1..] == ["2", "7", "photo.png"];
    assert pieces[2..] == ["7", "photo.png"];
    assert pieces[3..] == ["photo.png"];
    assert JoinPieces(pieces[2..]) == "7" + [Sep] + "photo.png" == "7/photo.png";
    assert JoinPieces(pieces[1..]) == "2" + [Sep] + "7/photo.png" == "2/7/photo.png";
    assert JoinPieces(pieces) == "2024" + [Sep] + "2/7/photo.png" == "2024/2/7/photo.png";
  }

  lemma YearText()
    ensures IntToString(2024) == "2024"
  {
    assert NatToString(2) == "2";
    assert NatToString(20) == "20";
    assert NatToString(202) == "202";
  }
}
