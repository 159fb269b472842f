/**
 Splitting one pipeline segment into program and argument, in place, in NUL-terminated buffers
 (parse_args and parse_com of les15_pipes/src/interpretator.c).
 */
module CommandLine {

  // --------------------------------------------------------- NUL-terminated buffers

  function StrLen(buf: seq<char>): (n: nat)
    requires '\0' in buf
    ensures n < |buf| && buf[n] == '\0' && '\0' !in buf[..n]
  {
    if buf[0] == '\0' then 0 else
      var m := StrLen(buf[1..]);
      assert buf[..m + 1] == [buf[0]] + buf[1..][..m];
      m + 1
  }

  function CStr(buf: seq<char>): string
    requires '\0' in buf
  {
    buf[..StrLen(buf)]
  }

  lemma StrLenIs(buf: seq<char>, n: nat)
    requires n < |buf| && buf[n] == '\0' && '\0' !in buf[..n]
    ensures StrLen(buf) == n
  {
  }

  method StrCpy(dst: array<char>, s: string)
    requires |s| < dst.Length && '\0' !in s
    modifies dst
    ensures '\0' in dst[..] && CStr(dst[..]) == s
  {
    var i := 0;
    while i < |s|
      invariant 0 <= i <= |s|
      invariant dst[..i] == s[..i]
    {
      dst[i] := s[i];
      i := i + 1;
    }
    dst[i] := '\0';
    assert dst[..][..i] == s;
    StrLenIs(dst[..], i);
  }

  // ------------------------------------------------------- what the parts of a line are

  /** The first position from i on that holds no space. */
  function SpacesEnd(s: string, i: nat): (e: nat)
    requires i <= |s|
    ensures i <= e <= |s|
    decreases |s| - i
  {
    if i < |s| && s[i] == ' ' then SpacesEnd(s, i + 1) else i
  }

  /** The first position from i on that holds a space. */
  function WordEnd(s: string, i: nat): (e: nat)
    requires i <= |s|
    ensures i <= e <= |s|
    decreases |s| - i
  {
    if i < |s| && s[i] != ' ' then WordEnd(s, i + 1) else i
  }

  function TrimRight(s: string): string {
    if s != "" && s[|s| - 1] == ' ' then TrimRight(s[..|s| - 1]) else s
  }

  /** Where the argument starts. */
  function ArgumentStart(s: string): (p: nat)
    ensures p <= |s|
  {
    SpacesEnd(s, WordEnd(s, SpacesEnd(s, 0)))
  }

  function Argument(s: string): string { TrimRight(s[ArgumentStart(s)..]) }

  /** What parse_args leaves in the command buffer. */
  function AfterParseArgs(s: string): string { s[..ArgumentStart(s)] + Argument(s) }

  /** What parse_com leaves of a line. */
  function FirstWord(s: string): string { s[..WordEnd(s, 0)] }

  function Spaces(n: nat): string { seq(n, _ => ' ') }

  lemma {:induction false} TrimRightIsPrefix(s: string) returns (k: nat)
    ensures |TrimRight(s)| + k == |s| && s == TrimRight(s) + Spaces(k)
    ensures TrimRight(s) == "" || TrimRight(s)[|TrimRight(s)| - 1] != ' '
  {
    if s != "" && s[|s| - 1] == ' ' {
      k := TrimRightIsPrefix(s[..|s| - 1]);
      assert s == s[..|s| - 1] + [' '];
      assert Spaces(k) + [' '] == Spaces(k + 1);
      k := k + 1;
    } else {
      k := 0;
    }
  }

  // --------------------------------------------------------------------- the code

  /** parse_args, first half: the pointer to the argument (-1 for NULL). */
  method FindArgument(command: array<char>) returns (pointer: int, flag: int)
    requires '\0' in command[..]
    ensures var s := CStr(command[..]);
            if pointer == -1 then flag == 0 && ArgumentStart(s) == |s|
            else flag == 1 && pointer == ArgumentStart(s) && 0 < pointer && command[pointer - 1] == ' '
    ensures var s := CStr(command[..]); pointer == -1 <==> WordEnd(s, SpacesEnd(s, 0)) == |s|
  {
    ghost var s := CStr(command[..]);
    var n := StrLen(command[..]);
    pointer := -1;
    flag := 0;
    var i := 0;
    while command[i] == ' '
      invariant 0 <= i <= n
      invariant SpacesEnd(s, i) == SpacesEnd(s, 0)
      decreases n - i
    {
      assert s[i] == ' ';
      i := i + 1;
    }
    ghost var start := i;
    while i < StrLen(command[..])
      invariant start <= i <= n
      invariant WordEnd(s, i) == WordEnd(s, start)
      decreases n - i
    {
      if command[i] == '\0' { break; }
      if command[i] == ' ' {
        ghost var w := i;
        while command[i] == ' ' && command[i] != '\0'
          invariant w <= i <= n
          invariant i == w || command[i - 1] == ' '
          invariant SpacesEnd(s, i) == SpacesEnd(s, w)
          decreases n - i
        {
          assert s[i] == ' ';
          i := i + 1;
        }
        pointer := i;
        flag := 1;
        return;
      }
      assert s[i] != ' ';
      i := i + 1;
    }
  }

  /** parse_args, second half: ends the text at pointer after its last non-space. */
  method TrimTail(command: array<char>, pointer: nat)
    requires '\0' in command[..]
    requires 0 < pointer <= StrLen(command[..])
    modifies command
    ensures '\0' in command[..]
    ensures CStr(command[..]) == old(CStr(command[..])[..pointer] + TrimRight(CStr(command[..])[pointer..]))
  {
    ghost var s := CStr(command[..]);
    ghost var t := s[pointer..];
    var i := StrLen(command[..]) - pointer - 1;
    assert t[..i + 1] == t;
    assert forall k | 0 <= k < |t| :: t[k] == command[pointer + k];
    while command[pointer + i] == ' ' && i >= 0
      invariant -1 <= i < |t|
      invariant TrimRight(t[..i + 1]) == TrimRight(t)
    {
      assert t[..i + 1][..i] == t[..i] && t[..i + 1][i] == ' ';
      i := i - 1;
    }
    assert i >= 0 ==> t[..i + 1][i] != ' ';
    assert t[..i + 1] == TrimRight(t);
    assert command[..][..pointer + i + 1] == s[..pointer] + t[..i + 1];
    command[pointer + i + 1] := '\0';
    assert command[..][..pointer + i + 1] == s[..pointer] + t[..i + 1];
    StrLenIs(command[..], pointer + i + 1);
  }

  /** parse_args: copies the argument out and cuts trailing spaces off the command buffer. */
  method ParseArgs(arg: array<char>, command: array<char>)
    requires arg != command
    requires '\0' in command[..] && StrLen(command[..]) < arg.Length
    modifies arg, command
    ensures '\0' in command[..] && '\0' in arg[..]
    ensures CStr(arg[..]) == Argument(old(CStr(command[..])))
    ensures CStr(command[..]) == AfterParseArgs(old(CStr(command[..])))
  {
    ghost var s := CStr(command[..]);
    var pointer, flag := FindArgument(command);
    if pointer != -1 {
      TrimTail(command, pointer);
    }
    if flag == 1 {
      assert AfterParseArgs(s)[pointer..] == Argument(s);
      ghost var k := TrimRightIsPrefix(s[pointer..]);
      StrCpy(arg, CStr(command[..])[pointer..]);
    } else {
      StrCpy(arg, "");
    }
  }

  /** parse_com: ends the command at its first space. */
  method ParseCom(command: array<char>)
    requires '\0' in command[..]
    modifies command
    ensures '\0' in command[..]
    ensures CStr(command[..]) == FirstWord(old(CStr(command[..])))
  {
    ghost var s := CStr(command[..]);
    var n := StrLen(command[..]);
    var i := 0;
    while i < StrLen(command[..])
      invariant 0 <= i <= n && command[..] == old(command[..])
      invariant WordEnd(s, i) == WordEnd(s, 0)
      decreases n - i
    {
      if command[i] == ' ' {
        command[i] := '\0';
        assert command[..][..i] == s[..i];
        StrLenIs(command[..], i);
        return;
      }
      assert s[i] != ' ';
      i := i + 1;
    }
  }

  /** The two in the order main calls them. */
  method ParseSegment(arg: array<char>, command: array<char>)
    requires arg != command
    requires '\0' in command[..] && StrLen(command[..]) < arg.Length
    modifies arg, command
    ensures '\0' in command[..] && '\0' in arg[..]
    ensures CStr(command[..]) == FirstWord(old(CStr(command[..])))
    ensures CStr(arg[..]) == Argument(old(CStr(command[..])))
  {
    ghost var s := CStr(command[..]);
    ParseArgs(arg, command);
    ParseCom(command);
    CuttingKeepsFirstWord(s);
  }

  // ------------------------------------------------------------------- properties

  lemma {:induction false} WordEndIs(s: string, i: nat, e: nat)
    requires i <= e <= |s|
    requires forall k | i <= k < e :: s[k] != ' '
    requires e < |s| ==> s[e] == ' '
    ensures WordEnd(s, i) == e
    decreases e - i
  {
    if i < e {
      WordEndIs(s, i + 1, e);
    }
  }

  lemma {:induction false} SpacesEndIs(s: string, i: nat, e: nat)
    requires i <= e <= |s|
    requires forall k | i <= k < e :: s[k] == ' '
    requires e < |s| ==> s[e] != ' '
    ensures SpacesEnd(s, i) == e
    decreases e - i
  {
    if i < e {
      SpacesEndIs(s, i + 1, e);
    }
  }

  lemma {:induction false} WordEndSpec(s: string, i: nat)
    requires i <= |s|
    ensures forall k | i <= k < WordEnd(s, i) :: s[k] != ' '
    ensures WordEnd(s, i) < |s| ==> s[WordEnd(s, i)] == ' '
    decreases |s| - i
  {
    if i < |s| && s[i] != ' ' {
      WordEndSpec(s, i + 1);
    }
  }

  lemma {:induction false} SpacesEndSpec(s: string, i: nat)
    requires i <= |s|
    ensures forall k | i <= k < SpacesEnd(s, i) :: s[k] == ' '
    ensures SpacesEnd(s, i) < |s| ==> s[SpacesEnd(s, i)] != ' '
    decreases |s| - i
  {
    if i < |s| && s[i] == ' ' {
      SpacesEndSpec(s, i + 1);
    }
  }

  lemma CuttingKeepsFirstWord(s: string)
    ensures FirstWord(AfterParseArgs(s)) == FirstWord(s)
  {
    var p, c, e := ArgumentStart(s), AfterParseArgs(s), WordEnd(s, 0);
    WordEndSpec(s, 0);
    WordEndSpec(s, SpacesEnd(s, 0));
    SpacesEndSpec(s, 0);
    SpacesEndSpec(s, WordEnd(s, SpacesEnd(s, 0)));
    if e < p {
      assert c[e] == s[e] == ' ';
      WordEndIs(c, 0, e);
    } else {
      assert e == p == |s|;
      assert c == s;
    }
  }

  /** A line of a word and an argument, as one could write it. */
  ghost predicate Splits(s: string, t: string, m: nat, r: string, k: nat) {
    && s == t + Spaces(m) + r + Spaces(k)
    && ' ' !in t
    && (r != "" ==> m > 0 && r[0] != ' ' && r[|r| - 1] != ' ')
  }

  lemma {:induction false} TrimRightIs(s: string, r: string, k: nat)
    requires s == r + Spaces(k) && (r != "" ==> r[|r| - 1] != ' ')
    ensures TrimRight(s) == r
  {
    if k > 0 {
      assert s[..|s| - 1] == r + Spaces(k - 1);
      TrimRightIs(s[..|s| - 1], r, k - 1);
    } else {
      assert s == r;
    }
  }

  /** Parsing undoes writing: whatever word and argument a line is made of come back. */
  lemma WrittenLineParses(s: string, t: string, m: nat, r: string, k: nat)
    requires Splits(s, t, m, r, k) && t != ""
    ensures FirstWord(s) == t && Argument(s) == r
  {
    var a := |t| + m;
    assert s[0] == t[0] != ' ';
    assert forall i | 0 <= i < |t| :: s[i] == t[i];
    if r == "" {
      assert forall i | |t| <= i < |s| :: s[i] == ' ';
      WordEndIs(s, 0, |t|);
      SpacesEndIs(s, |t|, |s|);
      assert s[|s|..] == "";
    } else {
      assert forall i | |t| <= i < a :: s[i] == ' ';
      assert s[a] == r[0];
      WordEndIs(s, 0, |t|);
      SpacesEndIs(s, |t|, a);
      assert s[a..] == r + Spaces(k);
      TrimRightIs(s[a..], r, k);
    }
  }

  /** And every line that does not begin with a space is made of the word and argument it parses to. */
  lemma ParsedLineIsMadeOfItsParts(s: string) returns (m: nat, k: nat)
    requires s != "" && s[0] != ' '
    ensures FirstWord(s) != "" && Splits(s, FirstWord(s), m, Argument(s), k)
  {
    var e, p := WordEnd(s, 0), ArgumentStart(s);
    WordEndSpec(s, 0);
    SpacesEndSpec(s, e);
    m := p - e;
    k := TrimRightIsPrefix(s[p..]);
    assert s[e..p] == Spaces(m);
    assert s == s[..e] + s[e..p] + s[p..];
    assert s[p..] == Argument(s) + Spaces(k);
    if Argument(s) != "" {
      assert Argument(s)[0] == s[p];
    }
  }

  /** A line that does begin with a space loses its program name, though not its argument. */
  lemma LeadingSpaceLosesCommand(s: string)
    ensures FirstWord(s) == "" <==> s == "" || s[0] == ' '
  {
  }

  lemma LeadingSpaceKeepsArgument(n: nat, t: string)
    requires t != "" && t[0] != ' '
    ensures Argument(Spaces(n) + t) == Argument(t)
  {
    var s := Spaces(n) + t;
    var e := WordEnd(t, 0);
    var p := SpacesEnd(t, e);
    WordEndSpec(t, 0);
    SpacesEndSpec(t, e);
    assert forall i | n <= i < |s| :: s[i] == t[i - n];
    SpacesEndIs(s, 0, n);
    WordEndIs(s, n, n + e);
    SpacesEndIs(s, n + e, n + p);
    assert ArgumentStart(s) == n + p && ArgumentStart(t) == p;
    SuffixOfConcat(Spaces(n), t, p);
  }

  lemma SuffixOfConcat(a: string, b: string, p: nat)
    requires p <= |b|
    ensures (a + b)[|a| + p..] == b[p..]
  {
  }
}
