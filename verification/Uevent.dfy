// Reading a sysfs uevent file: one key=value assignment per line.
module Uevent {
  import opened Wrappers
  import opened GoStrings

  datatype UeventError = NotOpened | LineTooLong | NoDriver

  // bufio.Scanner gives up on a line that does not fit its buffer.
  const MAX_SCAN_TOKEN_SIZE := 65536

  // The lines of a file as bufio.ScanLines cuts them, before the carriage return is
  // dropped; a final line need not end in a newline.
  function RawLines(text: string): seq<string>
    decreases |text|
  {
    if text == "" then []
    else
      var i := Index(text, "\n");
      if i == -1 then [text] else [text[..i]] + RawLines(text[i + 1..])
  }

  function DropCR(line: string): string {
    TrimSuffix(line, "\r")
  }

  // The assignment on a line, split at the first "=".
  function Assignment(line: string): Option<(string, string)> {
    Cut(DropCR(line), "=")
  }

  function Assign(m: map<string, string>, line: string): map<string, string> {
    match Assignment(line)
    case None => m
    case Some((key, value)) => m[key := value]
  }

  function Assignments(lines: seq<string>): map<string, string> {
    if lines == [] then map[]
    else Assign(Assignments(lines[..|lines| - 1]), lines[|lines| - 1])
  }

  predicate TooLong(line: string) {
    |line| >= MAX_SCAN_TOKEN_SIZE
  }

  function UeventOf(content: Option<string>): (r: Result<map<string, string>, UeventError>)
    ensures r.Ok? ==> "DRIVER" in r.value && r.value["DRIVER"] != ""
  {
    if content.None? then Err(NotOpened)
    else
      var lines := RawLines(content.value);
      var m := Assignments(lines);
      if exists i :: 0 <= i < |lines| && TooLong(lines[i]) then Err(LineTooLong)
      else if "DRIVER" !in m || m["DRIVER"] == "" then Err(NoDriver)
      else Ok(m)
  }

  method ReadUevent(content: Option<string>) returns (r: Result<map<string, string>, UeventError>)
    ensures r == UeventOf(content)
  {
    var uevent: map<string, string> := map[];
    if content.None? {
      return Err(NotOpened);
    }
    var lines := RawLines(content.value);
    for i := 0 to |lines|
      invariant uevent == Assignments(lines[..i])
      invariant forall j :: 0 <= j < i ==> !TooLong(lines[j])
    {
      assert lines[..i + 1][..i] == lines[..i];
      if TooLong(lines[i]) {
        return Err(LineTooLong);
      }
      var kv := Cut(DropCR(lines[i]), "=");
      if kv.None? {
        continue;
      }
      uevent := uevent[kv.value.0 := kv.value.1];
    }
    assert lines[..|lines|] == lines;
    if "DRIVER" !in uevent || uevent["DRIVER"] == "" {
      return Err(NoDriver);
    }
    return Ok(uevent);
  }

  // Line k is the last one to assign to key.
  ghost predicate LastAssigns(lines: seq<string>, k: nat, key: string, value: string) {
    && k < |lines| && Assignment(lines[k]) == Some((key, value))
    && forall j :: k < j < |lines| && Assignment(lines[j]).Some? ==> Assignment(lines[j]).value.0 != key
  }

  // For any file: a key has the value of the last line that assigns to it.
  lemma {:induction false} LastAssignmentWins(lines: seq<string>, key: string, value: string)
    ensures key in Assignments(lines) && Assignments(lines)[key] == value
            <==> exists k: nat :: LastAssigns(lines, k, key, value)
  {
    hide Assignment;
    if lines != [] {
      var n := |lines| - 1;
      var init := lines[..n];
      LastAssignmentWins(init, key, value);
      assert forall j :: 0 <= j < n ==> init[j] == lines[j];
      var a := Assignment(lines[n]);
      if a.Some? && a.value.0 == key {
        if a.value.1 == value {
          assert LastAssigns(lines, n, key, value);
        }
      } else {
        if k: nat :| LastAssigns(init, k, key, value) {
          assert LastAssigns(lines, k, key, value);
        }
        if k: nat :| LastAssigns(lines, k, key, value) {
          assert LastAssigns(init, k, key, value);
        }
      }
    }
  }

  // ---- The file, letter by letter --------------------------------------------------------

  // The lines, each with a newline behind it.
  function Unlines(lines: seq<string>): string {
    if lines == [] then "" else lines[0] + "\n" + Unlines(lines[1..])
  }

  predicate Terminated(text: string) {
    text == "" || text[|text| - 1] == '\n'
  }

  // text consists of these lines; the last one may lack its newline.
  ghost predicate CutInto(text: string, lines: seq<string>) {
    && (forall i :: 0 <= i < |lines| ==> '\n' !in lines[i])
    && Unlines(lines) == if Terminated(text) then text else text + "\n"
  }

  lemma FirstNewline(line: string, rest: string)
    requires '\n' !in line
    ensures Index(line + "\n" + rest, "\n") == |line|
  {
    IndexOfByte(line, '\n', rest);
  }

  lemma {:induction false} RawLinesFirst(line: string, rest: string)
    requires '\n' !in line
    ensures RawLines(line + "\n" + rest) == [line] + RawLines(rest)
  {
    var text := line + "\n" + rest;
    FirstNewline(line, rest);
    assert text[..|line|] == line && text[|line| + 1..] == rest;
  }

  lemma NowhereNewline(text: string)
    requires '\n' !in text
    ensures Index(text, "\n") == -1
  {
    forall j | 0 <= j < |text| ensures !OccursAt(text, "\n", j) {
      assert text[j..j + 1] == [text[j]];
    }
  }

  lemma NoNewline(text: string)
    requires Index(text, "\n") == -1
    ensures '\n' !in text
  {
    forall i | 0 <= i < |text| ensures text[i] != '\n' {
      assert !OccursAt(text, "\n", i) && text[i..i + 1] == [text[i]];
    }
  }

  lemma {:induction false} CutIsRawLines(text: string, lines: seq<string>)
    requires CutInto(text, lines)
    ensures RawLines(text) == lines
    decreases |lines|
  {
    if lines != [] {
      var rest := Unlines(lines[1..]);
      var whole := lines[0] + "\n" + rest;
      assert whole == Unlines(lines) && |whole| > 0;
      if whole == text {
        hide RawLines;
        RawLinesFirst(lines[0], rest);
        UnlinesTerminated(lines[1..]);
        assert lines == [lines[0]] + lines[1..];
        CutIsRawLines(rest, lines[1..]);
      } else {
        CutUnterminated(text, lines);
      }
    }
  }

  lemma {:induction false} UnlinesTerminated(lines: seq<string>)
    ensures Terminated(Unlines(lines))
  {
    if lines != [] {
      UnlinesTerminated(lines[1..]);
    }
  }

  lemma {:induction false} CutUnterminated(text: string, lines: seq<string>)
    requires CutInto(text, lines) && !Terminated(text) && lines != []
    ensures RawLines(text) == lines
    decreases |lines|, 0
  {
    var line, rest := lines[0], Unlines(lines[1..]);
    assert text + "\n" == line + "\n" + rest;
    if rest == "" {
      UnlinesEmpty(lines[1..]);
      assert text == line by {
        assert (text + "\n")[..|text|] == text && (line + "\n" + rest)[..|line|] == line;
      }
      NowhereNewline(text);
      assert lines == [line];
    } else {
      hide RawLines;
      UnlinesTerminated(lines[1..]);
      var short := rest[..|rest| - 1];
      assert rest == short + "\n";
      assert text == line + "\n" + short by {
        assert (text + "\n")[..|text|] == text && (line + "\n" + rest)[..|text|] == line + "\n" + short;
      }
      assert short == "" ==> text == line + "\n";
      assert short != "" ==> short[|short| - 1] == text[|text| - 1];
      CutIsRawLines(short, lines[1..]);
      RawLinesFirst(line, short);
      assert lines == [line] + lines[1..];
    }
  }

  lemma {:induction false} UnlinesEmpty(lines: seq<string>)
    requires Unlines(lines) == ""
    ensures lines == []
  {
  }

  lemma OneLineCut(text: string)
    requires text != "" && '\n' !in text
    ensures CutInto(text, [text])
  {
    assert text[|text| - 1] in text && [text][1..] == [];
    assert Unlines([text]) == text + "\n" + "" == text + "\n";
  }

  // One more line in front.
  lemma {:induction false} CutMore(line: string, rest: string, lines: seq<string>)
    requires '\n' !in line && CutInto(rest, lines)
    ensures CutInto(line + "\n" + rest, [line] + lines)
  {
    var text, all := line + "\n" + rest, [line] + lines;
    assert all[1..] == lines && Unlines(all) == line + "\n" + Unlines(lines);
    assert rest != "" ==> text[|text| - 1] == rest[|rest| - 1];
    assert rest == "" ==> text[|text| - 1] == '\n';
    assert line + "\n" + (rest + "\n") == text + "\n";
    hide Unlines;
  }

  lemma {:induction false} RawLinesCut(text: string)
    ensures CutInto(text, RawLines(text))
    decreases |text|
  {
    var i := Index(text, "\n");
    if text == "" {
    } else if i == -1 {
      NoNewline(text);
      OneLineCut(text);
    } else {
      var line, rest := FirstLine(text);
      hide RawLines, Index, CutInto;
      RawLinesCut(rest);
      RawLinesFirst(line, rest);
      CutMore(line, rest, RawLines(rest));
    }
  }

  lemma FirstLine(text: string) returns (line: string, rest: string)
    requires Index(text, "\n") != -1
    ensures '\n' !in line && text == line + "\n" + rest
  {
    var i := Index(text, "\n");
    line, rest := text[..i], text[i + 1..];
    assert text[i..i + 1][0] == '\n';
    forall j | 0 <= j < i ensures text[j] != '\n' {
      assert !OccursAt(text, "\n", j) && text[j..j + 1] == [text[j]];
    }
  }

  // The scanner's lines are the only way to cut the file into lines.
  lemma {:induction false} RawLinesExactly(text: string, lines: seq<string>)
    ensures RawLines(text) == lines <==> CutInto(text, lines)
  {
    RawLinesCut(text);
    if CutInto(text, lines) {
      CutIsRawLines(text, lines);
    }
  }

  // line is key=value, with or without a carriage return behind it; the key ends at the
  // first "=".
  ghost predicate Assigns(line: string, key: string, value: string) {
    && '=' !in key
    && (line == key + "=" + value + "\r" || (line == key + "=" + value && line[|line| - 1] != '\r'))
  }

  lemma AssignmentExactly(line: string, key: string, value: string)
    ensures Assignment(line) == Some((key, value)) <==> Assigns(line, key, value)
  {
    var text := DropCR(line);
    assert HasSuffix(line, "\r") <==> line != "" && line[|line| - 1] == '\r' by {
      if line != "" {
        assert line[|line| - 1..] == [line[|line| - 1]];
      }
    }
    assert Assigns(line, key, value) <==> '=' !in key && text == key + "=" + value by {
      assert HasSuffix(line, "\r") ==> line == text + "\r";
      assert (key + "=" + value + "\r")[..|key + "=" + value|] == key + "=" + value;
    }
    CutExactly(text, key, value);
    hide Cut;
  }

  lemma CutExactly(text: string, key: string, value: string)
    ensures Cut(text, "=") == Some((key, value)) <==> '=' !in key && text == key + "=" + value
  {
    var i := Index(text, "=");
    if i != -1 {
      assert text[i..i + 1][0] == '=' && text == text[..i] + "=" + text[i + 1..];
      forall j | 0 <= j < i ensures text[j] != '=' {
        assert !OccursAt(text, "=", j) && text[j..j + 1] == [text[j]];
      }
    }
    if '=' !in key && text == key + "=" + value {
      IndexOfByte(key, '=', value);
      assert text[..|key|] == key && text[|key| + 1..] == value;
    }
  }

  // Line k assigns value to key, and no later line assigns to it.
  ghost predicate LastSays(lines: seq<string>, k: nat, key: string, value: string) {
    && k < |lines| && Assigns(lines[k], key, value)
    && forall j, v :: k < j < |lines| ==> !Assigns(lines[j], key, v)
  }

  ghost predicate UeventSays(content: string, key: string, value: string) {
    exists k: nat :: LastSays(RawLines(content), k, key, value)
  }

  lemma {:induction false} SaysIsAssigns(lines: seq<string>, k: nat, key: string, value: string)
    ensures LastSays(lines, k, key, value) <==> LastAssigns(lines, k, key, value)
  {
    forall j, v | 0 <= j < |lines| ensures Assignment(lines[j]) == Some((key, v)) <==> Assigns(lines[j], key, v) {
      AssignmentExactly(lines[j], key, v);
    }
    forall j | 0 <= j < |lines|
      ensures Assignment(lines[j]).Some? && Assignment(lines[j]).value.0 == key
              <==> exists v :: Assigns(lines[j], key, v)
    {
      var a := Assignment(lines[j]);
      if a.Some? && a.value.0 == key {
        assert Assigns(lines[j], key, a.value.1);
      }
      if v :| Assigns(lines[j], key, v) {
        AssignmentExactly(lines[j], key, v);
      }
    }
    hide Assignment, Assigns;
  }

  // Reading any file: it fails exactly if it cannot be opened, has a line of 64 KiB or
  // more, or no line with a driver; otherwise each key has the value that the last line
  // about it says.
  lemma {:induction false} UeventExactly(content: string, u: map<string, string>)
    ensures UeventOf(Some(content)) == Ok(u) <==>
            && (forall line :: line in RawLines(content) ==> |line| < 0x1_0000)
            && (exists driver :: driver != "" && UeventSays(content, "DRIVER", driver))
            && (forall key, value :: key in u && u[key] == value <==> UeventSays(content, key, value))
    ensures UeventOf(Some(content)) == Err(LineTooLong) <==>
            exists line :: line in RawLines(content) && |line| >= 0x1_0000
  {
    var lines := RawLines(content);
    var m := Assignments(lines);
    forall key, value ensures key in m && m[key] == value <==> UeventSays(content, key, value) {
      LastAssignmentWins(lines, key, value);
      forall k: nat ensures LastSays(lines, k, key, value) <==> LastAssigns(lines, k, key, value) {
        SaysIsAssigns(lines, k, key, value);
      }
    }
    hide Assignments, RawLines, LastSays, LastAssigns, UeventSays;
    SameAssignments(content, m, u);
    assert "DRIVER" in m && m["DRIVER"] != ""
           <==> exists driver :: driver != "" && UeventSays(content, "DRIVER", driver) by {
      if "DRIVER" in m {
        assert UeventSays(content, "DRIVER", m["DRIVER"]);
      }
    }
    assert (exists i :: 0 <= i < |lines| && TooLong(lines[i]))
           <==> exists line :: line in lines && |line| >= 0x1_0000 by {
      assert forall i :: 0 <= i < |lines| ==> lines[i] in lines;
    }
  }

  lemma SameAssignments(content: string, m: map<string, string>, u: map<string, string>)
    requires forall key, value :: key in m && m[key] == value <==> UeventSays(content, key, value)
    ensures m == u <==> forall key, value :: key in u && u[key] == value <==> UeventSays(content, key, value)
  {
    hide UeventSays;
    if forall key, value :: key in u && u[key] == value <==> UeventSays(content, key, value) {
      forall key | key in m ensures key in u && u[key] == m[key] {
        assert UeventSays(content, key, m[key]);
      }
      forall key | key in u ensures key in m {
        assert UeventSays(content, key, u[key]);
      }
    }
  }

  // ---- Rendering ----------------------------------------------------------------------

  function Line(kv: (string, string)): string {
    kv.0 + "=" + kv.1
  }

  function Render(kvs: seq<(string, string)>): string {
    if kvs == [] then "" else Line(kvs[0]) + "\n" + Render(kvs[1..])
  }

  function MapOf(kvs: seq<(string, string)>): map<string, string> {
    if kvs == [] then map[]
    else MapOf(kvs[..|kvs| - 1])[kvs[|kvs| - 1].0 := kvs[|kvs| - 1].1]
  }

  ghost predicate Renderable(kv: (string, string)) {
    && '=' !in kv.0 && '\n' !in kv.0 && '\n' !in kv.1 && !HasSuffix(kv.1, "\r")
    && |kv.0| + 1 + |kv.1| < 0x1_0000
  }

  lemma IndexOfByte(s: string, c: char, t: string)
    requires c !in s
    ensures Index(s + [c] + t, [c]) == |s|
  {
    var u := s + [c] + t;
    assert u[|s|..|s| + 1] == [c];
    forall j | 0 <= j < |s| ensures !OccursAt(u, [c], j) {
      assert u[j..j + 1][0] == s[j];
    }
    IndexIs(u, [c], |s|);
  }

  lemma LineReadsBack(kv: (string, string))
    requires Renderable(kv)
    ensures Assignment(Line(kv)) == Some(kv) && '\n' !in Line(kv)
  {
    var line := Line(kv);
    assert !HasSuffix(line, "\r") by {
      if kv.1 == "" {
        assert line[|line| - 1..][0] == '=';
      } else {
        assert line[|line| - 1..] == kv.1[|kv.1| - 1..];
      }
    }
    IndexOfByte(kv.0, '=', kv.1);
    assert line[..|kv.0|] == kv.0 && line[|kv.0| + 1..] == kv.1;
  }

  lemma {:induction false} RenderedLines(kvs: seq<(string, string)>)
    requires forall i :: 0 <= i < |kvs| ==> Renderable(kvs[i])
    ensures RawLines(Render(kvs)) == seq(|kvs|, i requires 0 <= i < |kvs| => Line(kvs[i]))
  {
    if kvs != [] {
      RenderedLines(kvs[1..]);
      LineReadsBack(kvs[0]);
      hide RawLines, Renderable, Line;
      var line, rest := Line(kvs[0]), Render(kvs[1..]);
      RawLinesFirst(line, rest);
      assert Render(kvs) == line + "\n" + rest;
    }
  }

  lemma {:induction false} AssignmentsOf(kvs: seq<(string, string)>, lines: seq<string>)
    requires |lines| == |kvs|
    requires forall i :: 0 <= i < |kvs| ==> Assignment(lines[i]) == Some(kvs[i])
    ensures Assignments(lines) == MapOf(kvs)
  {
    if kvs != [] {
      AssignmentsOf(kvs[..|kvs| - 1], lines[..|lines| - 1]);
    }
  }

  // Round trip: a map rendered as key=value lines, in any order, is read back, as long
  // as it names a driver.
  lemma {:induction false} UeventInvertsRender(kvs: seq<(string, string)>)
    requires forall i :: 0 <= i < |kvs| ==> Renderable(kvs[i])
    ensures UeventOf(Some(Render(kvs))) ==
            if "DRIVER" in MapOf(kvs) && MapOf(kvs)["DRIVER"] != "" then Ok(MapOf(kvs)) else Err(NoDriver)
  {
    RenderedLines(kvs);
    var lines := RawLines(Render(kvs));
    forall i | 0 <= i < |kvs| ensures Assignment(lines[i]) == Some(kvs[i]) && !TooLong(lines[i]) {
      LineReadsBack(kvs[i]);
    }
    AssignmentsOf(kvs, lines);
  }
}
