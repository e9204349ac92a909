// The functions of Go's package strings that the agent calls. A string is a
// sequence of bytes; every pattern the agent searches for is ASCII.
module GoStrings {
  import opened Wrappers

  predicate HasPrefix(s: string, prefix: string) {
    prefix <= s
  }

  predicate HasSuffix(s: string, suffix: string) {
    |suffix| <= |s| && s[|s| - |suffix|..] == suffix
  }

  function TrimSuffix(s: string, suffix: string): string {
    if HasSuffix(s, suffix) then s[..|s| - |suffix|] else s
  }

  predicate OccursAt(s: string, sub: string, i: int) {
    0 <= i <= |s| - |sub| && s[i..i + |sub|] == sub
  }

  // The first occurrence of sub at or after position from, or -1.
  function IndexFrom(s: string, sub: string, from: nat): (i: int)
    requires from <= |s|
    ensures i == -1 || (from <= i && OccursAt(s, sub, i))
    ensures forall j :: from <= j < (if i == -1 then |s| + 1 else i) ==> !OccursAt(s, sub, j)
    decreases |s| - from
  {
    if OccursAt(s, sub, from) then from
    else if from == |s| then -1
    else IndexFrom(s, sub, from + 1)
  }

  function Index(s: string, sub: string): int {
    IndexFrom(s, sub, 0)
  }

  predicate Contains(s: string, sub: string) {
    Index(s, sub) != -1
  }

  // strings.Cut: the text before and after the first occurrence of sep.
  function Cut(s: string, sep: string): Option<(string, string)> {
    var i := Index(s, sep);
    if i == -1 then None else Some((s[..i], s[i + |sep|..]))
  }

  // The last occurrence of the byte c, or -1.
  function LastIndexByte(s: string, c: char): (i: int)
    ensures -1 <= i < |s|
    ensures i >= 0 ==> s[i] == c
    ensures forall j :: i < j < |s| ==> s[j] != c
  {
    if s == "" then -1
    else if s[|s| - 1] == c then |s| - 1
    else LastIndexByte(s[..|s| - 1], c)
  }

  function ReplaceAll(s: string, from: char, to: char): (r: string)
    ensures |r| == |s|
    ensures forall i :: 0 <= i < |s| ==> r[i] == if s[i] == from then to else s[i]
  {
    seq(|s|, i requires 0 <= i < |s| => if s[i] == from then to else s[i])
  }

  // One byte put in front of a split: a slash starts a new first component, any
  // other byte extends the old one.
  function Glue(c: char, parts: seq<string>): (r: seq<string>)
    requires parts != []
    ensures r != []
  {
    if c == '/' then [""] + parts else [[c] + parts[0]] + parts[1..]
  }

  // strings.Split(s, "/").
  function Split(s: string): (parts: seq<string>)
    ensures parts != []
  {
    if s == "" then [""] else Glue(s[0], Split(s[1..]))
  }

  // strings.Join(parts, "/").
  function Join(parts: seq<string>): string
    requires parts != []
  {
    if |parts| == 1 then parts[0] else parts[0] + "/" + Join(parts[1..])
  }

  // filepath.Join of a cleaned directory and a directory entry.
  function JoinPath(dir: string, name: string): string {
    if dir == "/" then "/" + name else dir + "/" + name
  }

  predicate SlashFree(s: string) {
    '/' !in s
  }

  // Split cuts at every slash and loses nothing.
  lemma {:induction false} JoinSplit(s: string)
    ensures Join(Split(s)) == s
    ensures forall k :: 0 <= k < |Split(s)| ==> SlashFree(Split(s)[k])
  {
    if s != "" {
      JoinSplit(s[1..]);
      var parts, rest := Split(s), Split(s[1..]);
      assert s == [s[0]] + s[1..];
      if s[0] == '/' {
        assert parts == [""] + rest && parts[1..] == rest;
      } else {
        assert parts[0] == [s[0]] + rest[0] && parts[1..] == rest[1..];
        assert SlashFree(rest[0]);
        forall k | 0 <= k < |parts| ensures SlashFree(parts[k]) {
          assert k == 0 || parts[k] == rest[k];
        }
        if |rest| > 1 {
          assert Join(parts) == [s[0]] + (rest[0] + "/" + Join(rest[1..]));
        }
      }
    }
  }

  lemma {:induction false} SplitConcat(a: string, b: string)
    ensures Split(a + "/" + b) == Split(a) + Split(b)
  {
    var s := a + "/" + b;
    if a == "" {
      assert s[0] == '/' && s[1..] == b;
    } else {
      assert s[0] == a[0] && s[1..] == a[1..] + "/" + b;
      SplitConcat(a[1..], b);
      GlueConcat(a[0], Split(a[1..]), Split(b));
    }
  }

  lemma GlueConcat(c: char, a: seq<string>, b: seq<string>)
    requires a != []
    ensures Glue(c, a + b) == Glue(c, a) + b
  {
    assert (a + b)[0] == a[0] && (a + b)[1..] == a[1..] + b;
  }

  lemma {:induction false} SplitSlashFree(s: string)
    requires SlashFree(s)
    ensures Split(s) == [s]
  {
    if s != "" {
      assert forall c :: c in s[1..] ==> c in s;
      SplitSlashFree(s[1..]);
      assert s == [s[0]] + s[1..];
    }
  }

  // A text found in one component is found in the whole path.
  lemma {:induction false} PartOccurs(s: string, k: nat, sub: string)
    requires k < |Split(s)| && HasPrefix(Split(s)[k], sub)
    ensures exists i :: OccursAt(s, sub, i)
  {
    if s == "" {
      assert OccursAt(s, sub, 0);
    } else {
      var rest := Split(s[1..]);
      if s[0] == '/' && k == 0 {
        assert OccursAt(s, sub, 0);
      } else if s[0] != '/' && k == 0 {
        HeadIsPrefix(s);
        assert OccursAt(s, sub, 0);
      } else {
        var k' := if s[0] == '/' then k - 1 else k;
        PartOccurs(s[1..], k', sub);
        var i :| OccursAt(s[1..], sub, i);
        assert s[i + 1..i + 1 + |sub|] == s[1..][i..i + |sub|];
        assert OccursAt(s, sub, i + 1);
      }
    }
  }

  lemma {:induction false} HeadIsPrefix(s: string)
    ensures Split(s)[0] <= s
  {
    if s != "" && s[0] != '/' {
      HeadIsPrefix(s[1..]);
      assert s == [s[0]] + s[1..];
    }
  }

  lemma IndexIs(s: string, sub: string, i: nat)
    requires OccursAt(s, sub, i)
    requires forall j :: 0 <= j < i ==> !OccursAt(s, sub, j)
    ensures Index(s, sub) == i
  {
    var r := IndexFrom(s, sub, 0);
  }

  lemma TrimSuffixOf(s: string, suffix: string)
    ensures HasSuffix(s + suffix, suffix) && TrimSuffix(s + suffix, suffix) == s
  {
    assert (s + suffix)[|s|..] == suffix;
    assert (s + suffix)[..|s|] == s;
  }
}
