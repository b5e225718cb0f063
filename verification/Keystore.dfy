/** Signing-share files: one hexadecimal line per share, under the key store's temp directory. */
module Keystore {
  import opened Wrappers
  import opened ByteCodec
  import Hex

  /** Go's `strings.Join` and `strings.Split` with a one-character separator. */
  function Join(lines: seq<string>, sep: char): string {
    if lines == [] then ""
    else if |lines| == 1 then lines[0]
    else lines[0] + [sep] + Join(lines[1..], sep)
  }

  function Split(text: string, sep: char): (lines: seq<string>)
    ensures lines != []
  {
    if text == "" then [""]
    else
      var rest := Split(text[1..], sep);
      if text[0] == sep then [""] + rest else [[text[0]] + rest[0]] + rest[1..]
  }

  predicate IsSpace(c: char) {
    c in " \t\n\r" || c == 11 as char || c == 12 as char
  }

  function TrimLeft(s: string): string {
    if s != "" && IsSpace(s[0]) then TrimLeft(s[1..]) else s
  }

  function TrimRight(s: string): string {
    if s != "" && IsSpace(s[|s| - 1]) then TrimRight(s[..|s| - 1]) else s
  }

  function TrimSpace(s: string): string {
    TrimRight(TrimLeft(s))
  }

  function HexLines(pkgs: seq<Bytes>): (lines: seq<string>)
    ensures |lines| == |pkgs|
  {
    if pkgs == [] then [] else [Hex.Encode(pkgs[0])] + HexLines(pkgs[1..])
  }

  /** The text of a share file. */
  function ShareText(pkgs: seq<Bytes>): string {
    Join(HexLines(pkgs), '\n')
  }

  /** Blank lines are skipped; one line that is not hexadecimal spoils the file. */
  function DecodeLines(lines: seq<string>): Option<seq<Bytes>> {
    if lines == [] then Some([])
    else
      var line := TrimSpace(lines[0]);
      if line == "" then DecodeLines(lines[1..])
      else
        match (Hex.Decode(line), DecodeLines(lines[1..]))
        case (Some(pkg), Some(rest)) => Some([pkg] + rest)
        case _ => None
  }

  /** A line that is empty but for white space, or that is hexadecimal but for white space around it. */
  ghost predicate LineOk(line: string) {
    TrimSpace(line) == "" || Hex.Decode(TrimSpace(line)).Some?
  }

  /** Tab, line feed, vertical tab, form feed, carriage return and space. */
  ghost predicate White(c: char) {
    9 <= c as int <= 13 || c as int == 32
  }

  /** Trimming removes the white space at both ends and nothing else. */
  lemma TrimExactly(s: string) returns (i: nat, j: nat)
    ensures i <= j <= |s| && TrimSpace(s) == s[i..j]
    ensures forall k | 0 <= k < i || j <= k < |s| :: White(s[k])
    ensures i < j ==> !White(s[i]) && !White(s[j - 1])
  {
    i := TrimLeftExactly(s);
    var m := TrimRightExactly(s[i..]);
    j := i + m;
    assert s[i..][..m] == s[i..j];
    forall k | j <= k < |s| ensures IsSpace(s[k]) {
      assert s[k] == s[i..][k - i];
    }
    assert forall c :: IsSpace(c) <==> White(c);
  }

  lemma {:induction false} TrimLeftExactly(s: string) returns (i: nat)
    ensures i <= |s| && TrimLeft(s) == s[i..] && (forall k | 0 <= k < i :: IsSpace(s[k]))
    ensures i < |s| ==> !IsSpace(s[i])
    decreases |s|
  {
    i := 0;
    if s != "" && IsSpace(s[0]) {
      var m := TrimLeftExactly(s[1..]);
      i := m + 1;
      forall k | 0 <= k < i ensures IsSpace(s[k]) {
        assert k > 0 ==> s[k] == s[1..][k - 1];
      }
    }
  }

  lemma {:induction false} TrimRightExactly(s: string) returns (j: nat)
    ensures j <= |s| && TrimRight(s) == s[..j] && (forall k | j <= k < |s| :: IsSpace(s[k]))
    ensures j > 0 ==> !IsSpace(s[j - 1])
    decreases |s|
  {
    j := |s|;
    if s != "" && IsSpace(s[|s| - 1]) {
      j := TrimRightExactly(s[..|s| - 1]);
      assert s[..|s| - 1][..j] == s[..j];
    }
  }

  /** A file is read exactly when all its lines are in order. */
  lemma {:induction false} DecodesExactly(lines: seq<string>)
    ensures DecodeLines(lines).Some? <==> forall i | 0 <= i < |lines| :: LineOk(lines[i])
    decreases |lines|
  {
    if lines != [] {
      DecodesExactly(lines[1..]);
      assert forall i | 1 <= i < |lines| :: lines[i] == lines[1..][i - 1];
      assert forall i | 0 <= i < |lines| - 1 :: lines[1..][i] == lines[i + 1];
    }
  }

  /** What a file says: nothing when a line is malformed or when no line holds a share. */
  function SharesOf(text: string): Option<seq<Bytes>> {
    match DecodeLines(Split(text, '\n'))
    case Some(pkgs) => if pkgs == [] then None else Some(pkgs)
    case None => None
  }

  function NonEmpty(pkgs: seq<Bytes>): seq<Bytes> {
    if pkgs == [] then []
    else if pkgs[0] == [] then NonEmpty(pkgs[1..])
    else [pkgs[0]] + NonEmpty(pkgs[1..])
  }

  lemma {:induction false} SplitFirst(line: string, rest: string, sep: char)
    requires sep !in line
    ensures Split(line + [sep] + rest, sep) == [line] + Split(rest, sep)
  {
    var text := line + [sep] + rest;
    if line == "" {
      assert text[1..] == rest;
    } else {
      SplitFirst(line[1..], rest, sep);
      assert text[1..] == line[1..] + [sep] + rest;
      assert [line[0]] + line[1..] == line;
    }
  }

  lemma {:induction false} SplitWhole(line: string, sep: char)
    requires sep !in line
    ensures Split(line, sep) == [line]
  {
    if line != "" {
      SplitWhole(line[1..], sep);
      assert [line[0]] + line[1..] == line;
    }
  }

  /** Joining then splitting gives the lines back, provided there is one and none holds the separator. */
  lemma {:induction false} SplitJoin(lines: seq<string>, sep: char)
    requires lines != []
    requires forall i | 0 <= i < |lines| :: sep !in lines[i]
    ensures Split(Join(lines, sep), sep) == lines
  {
    if |lines| == 1 {
      SplitWhole(lines[0], sep);
    } else {
      SplitJoin(lines[1..], sep);
      SplitFirst(lines[0], Join(lines[1..], sep), sep);
    }
  }

  lemma HexHasNoSpace(b: Bytes)
    ensures forall i | 0 <= i < |Hex.Encode(b)| :: !IsSpace(Hex.Encode(b)[i])
    ensures TrimSpace(Hex.Encode(b)) == Hex.Encode(b)
  {
    var s := Hex.Encode(b);
    forall i | 0 <= i < |s| ensures !IsSpace(s[i]) {
      assert Hex.DigitValue(s[i]).Some?;
    }
  }

  lemma {:induction false} DecodeHexLines(pkgs: seq<Bytes>)
    ensures DecodeLines(HexLines(pkgs)) == Some(NonEmpty(pkgs))
  {
    if pkgs != [] {
      DecodeHexLines(pkgs[1..]);
      HexHasNoSpace(pkgs[0]);
      Hex.RoundTrip(pkgs[0]);
      assert HexLines(pkgs)[1..] == HexLines(pkgs[1..]);
    }
  }

  lemma {:induction false} NonEmptyFixed(pkgs: seq<Bytes>)
    ensures |NonEmpty(pkgs)| <= |pkgs|
    ensures NonEmpty(pkgs) == pkgs <==> forall i | 0 <= i < |pkgs| :: pkgs[i] != []
  {
    if pkgs != [] {
      NonEmptyFixed(pkgs[1..]);
      if pkgs[0] != [] {
        assert NonEmpty(pkgs)[1..] == NonEmpty(pkgs[1..]);
      }
    }
  }

  /** Reading back a stored share list returns its non-empty shares, or nothing if there are none. */
  lemma LoadAfterStore(pkgs: seq<Bytes>)
    ensures SharesOf(ShareText(pkgs)) == (if NonEmpty(pkgs) == [] then None else Some(NonEmpty(pkgs)))
  {
    if pkgs == [] {
      assert Split("", '\n') == [""];
      assert DecodeLines([""]) == Some([]);
    } else {
      var lines := HexLines(pkgs);
      HexLineAt(pkgs);
      SplitJoin(lines, '\n');
      DecodeHexLines(pkgs);
    }
  }

  lemma {:induction false} HexLineAt(pkgs: seq<Bytes>)
    ensures forall i | 0 <= i < |pkgs| :: HexLines(pkgs)[i] == Hex.Encode(pkgs[i]) && '\n' !in HexLines(pkgs)[i]
  {
    if pkgs != [] {
      HexLineAt(pkgs[1..]);
      HexHasNoSpace(pkgs[0]);
    }
  }

  /** The file is faithful exactly for non-empty lists of non-empty shares. */
  lemma StoreLoadRoundTrip(pkgs: seq<Bytes>)
    ensures SharesOf(ShareText(pkgs)) == Some(pkgs)
      <==> pkgs != [] && forall i | 0 <= i < |pkgs| :: pkgs[i] != []
  {
    LoadAfterStore(pkgs);
    NonEmptyFixed(pkgs);
  }

  /** How the file system takes a write: in full; not at all; with a file whose permissions differ
      removed and no new one made; or with the old text gone and the new one cut short. */
  datatype Write = Written | Untouched | Gone | Cut(length: nat)

  function AfterWrite(files: map<string, string>, name: string, text: string, write: Write): map<string, string> {
    match write
    case Written => files[name := text]
    case Untouched => files
    case Gone => files - {name}
    case Cut(length) => files[name := if length < |text| then text[..length] else text]
  }

  /** The temp directory of a `FileKeystore`; every operation runs under the store's mutex. */
  class FileKeystore {
    var temp: map<string, string>

    constructor ()
      ensures temp == map[]
    {
      temp := map[];
    }

    method StoreSigningShares(name: string, pkgs: seq<Bytes>, write: Write)
      modifies this
      ensures temp == AfterWrite(old(temp), name, ShareText(pkgs), write)
    {
      var lines: seq<string> := [];
      for i := 0 to |pkgs|
        invariant temp == old(temp) && lines == HexLines(pkgs[..i])
      {
        HexLinesSnoc(pkgs[..i], pkgs[i]);
        assert pkgs[..i + 1] == pkgs[..i] + [pkgs[i]];
        lines := lines + [Hex.Encode(pkgs[i])];
      }
      assert pkgs[..|pkgs|] == pkgs && lines == HexLines(pkgs);
      WriteFile(name, Join(lines, '\n'), write);
    }

    /** An existing file with other permissions is removed first. */
    method WriteFile(name: string, data: string, write: Write)
      modifies this
      ensures temp == AfterWrite(old(temp), name, data, write)
    {
      match write
      case Written =>
        temp := temp[name := data];
      case Untouched =>
      case Gone =>
        temp := temp - {name};
      case Cut(length) =>
        temp := temp[name := if length < |data| then data[..length] else data];
    }

    method LoadSigningShares(name: string) returns (pkgs: Option<seq<Bytes>>)
      ensures pkgs == if name in temp then SharesOf(temp[name]) else None
    {
      if name !in temp {
        return None;
      }
      var lines := Split(temp[name], '\n');
      var packages: seq<Bytes> := [];
      assert lines[0..] == lines;
      assert DecodeLines(lines).Some? ==> packages + DecodeLines(lines).value == DecodeLines(lines).value;
      for i := 0 to |lines|
        invariant DecodeLines(lines) ==
          match DecodeLines(lines[i..]) { case Some(rest) => Some(packages + rest) case None => None }
      {
        var line := TrimSpace(lines[i]);
        assert lines[i..][1..] == lines[i + 1..];
        if line != "" {
          var pkg := Hex.Decode(line);
          if pkg == None {
            return None;
          }
          ghost var tail := DecodeLines(lines[i + 1..]);
          assert tail.Some? ==> packages + ([pkg.value] + tail.value) == packages + [pkg.value] + tail.value;
          packages := packages + [pkg.value];
        }
      }
      assert lines[|lines|..] == [] && packages + [] == packages;
      pkgs := if packages == [] then None else Some(packages);
    }

    /** Not the store's doing: files disappear from the disk between two operations. */
    method Vanish(lost: set<string>)
      modifies this
      ensures temp == old(temp) - lost
    {
      temp := temp - lost;
    }

    method Cleanup()
      modifies this
      ensures temp == map[]
    {
      temp := map[];
    }
  }

  lemma {:induction false} HexLinesSnoc(pkgs: seq<Bytes>, pkg: Bytes)
    ensures HexLines(pkgs + [pkg]) == HexLines(pkgs) + [Hex.Encode(pkg)]
  {
    if pkgs == [] {
      assert pkgs + [pkg] == [pkg];
      assert HexLines([pkg]) == [Hex.Encode(pkg)] + HexLines([]);
    } else {
      HexLinesSnoc(pkgs[1..], pkg);
      assert (pkgs + [pkg])[1..] == pkgs[1..] + [pkg];
    }
  }
}
