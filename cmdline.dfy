/**
 * The command line: blanks, at most a palette switch per token (/1 grey,
 * /2 red/blue, the last one wins) and exactly one file name, possibly quoted,
 * copied NUL-terminated into a buffer of bounded size.
 */
module CommandLine {
  import opened Wrappers

  const NUL: char := '\0'

  /** Character i of a C string held in s: NUL at and past the end. */
  function At(s: seq<char>, i: nat): char {
    if i < |s| then s[i] else NUL
  }

  predicate IsBlank(c: char) {
    c == ' ' || c == '\t'
  }

  /** What may follow a switch letter: the end of the line or a blank. */
  predicate EndsSwitch(c: char) {
    c == NUL || IsBlank(c)
  }

  /** What ends a file name: the end of the line, or a closing quote for a quoted name and a blank for another. */
  predicate EndsName(c: char, quoted: bool) {
    c == NUL || (if quoted then c == '"' else IsBlank(c))
  }

  /** The first position at or after i that is not a blank. */
  function SkipBlanks(s: seq<char>, i: nat): (j: nat)
    requires i <= |s|
    ensures i <= j <= |s| && !IsBlank(At(s, j))
    decreases |s| - i
  {
    if IsBlank(At(s, i)) then SkipBlanks(s, i + 1) else i
  }

  /** Everything SkipBlanks passes over is a blank. */
  lemma {:induction false} SkipBlanksSkips(s: seq<char>, i: nat)
    requires i <= |s|
    ensures forall k :: i <= k < SkipBlanks(s, i) ==> IsBlank(s[k])
    decreases |s| - i
  {
    if IsBlank(At(s, i)) {
      SkipBlanksSkips(s, i + 1);
    }
  }

  /** Where a file name whose first character is at i ends. */
  function NameEnd(s: seq<char>, i: nat, quoted: bool): (e: nat)
    requires i <= |s|
    ensures i <= e <= |s| && EndsName(At(s, e), quoted)
    decreases |s| - i
  {
    if EndsName(At(s, i), quoted) then i else NameEnd(s, i + 1, quoted)
  }

  /** No character before NameEnd ends the name. */
  lemma {:induction false} NameEndScans(s: seq<char>, i: nat, quoted: bool)
    requires i <= |s|
    ensures forall k :: i <= k < NameEnd(s, i, quoted) ==> !EndsName(s[k], quoted)
    decreases |s| - i
  {
    if !EndsName(At(s, i), quoted) {
      NameEndScans(s, i + 1, quoted);
    }
  }

  /** A token of the command line: a valid switch, a file name, or a malformed switch (which ends the scan). */
  datatype Token = Switch(mode: int) | Name(chars: seq<char>, quoted: bool) | BadSwitch

  /** The palette mode a switch letter selects. */
  function SwitchMode(c: char): (mode: int)
    ensures mode == 0 || mode == 1
    ensures mode == 0 <==> c == '1'
  {
    if c == '1' then 0 else 1
  }

  /** The tokens of s from position i on. */
  function Tokens(s: seq<char>, i: nat): (toks: seq<Token>)
    requires i <= |s|
    decreases |s| - i
  {
    var j := SkipBlanks(s, i);
    if At(s, j) == NUL then []
    else if s[j] == '/' then
      if (At(s, j + 1) == '1' || At(s, j + 1) == '2') && EndsSwitch(At(s, j + 2)) then
        [Switch(SwitchMode(s[j + 1]))] + Tokens(s, j + 2)
      else
        [BadSwitch]
    else
      var quoted := s[j] == '"';
      var b := if quoted then j + 1 else j;
      var e := NameEnd(s, b, quoted);
      [Name(s[b..e], quoted)] + Tokens(s, if quoted && At(s, e) == '"' then e + 1 else e)
  }

  /**
   * The scan's verdict on the remaining tokens, given the mode so far and the
   * name already taken: the mode and the name, or None on a malformed switch,
   * on a second name, on a name longer than size - 1 characters, and when no
   * name is given at all.
   */
  function Interpret(toks: seq<Token>, mode: int, name: Option<seq<char>>, size: int): (r: Option<(int, seq<char>)>)
    ensures r.Some? && name.Some? ==> r.value.1 == name.value
    ensures r.Some? && name.None? ==> |r.value.1| <= size - 1
  {
    if toks == [] then
      if name.Some? then Some((mode, name.value)) else None
    else
      match toks[0]
      case BadSwitch => None
      case Switch(m) => Interpret(toks[1..], m, name, size)
      case Name(n, _) =>
        if name.Some? || |n| > size - 1 then None else Interpret(toks[1..], mode, Some(n), size)
  }

  /** The outcome of parsing a command line (None for a missing one) into a buffer of `size` characters. */
  function ParseSpec(cmdLine: Option<seq<char>>, size: int): (r: Option<(int, seq<char>)>)
    ensures cmdLine.None? || At(cmdLine.value, 0) == NUL ==> r.None?
  {
    if cmdLine.None? || At(cmdLine.value, 0) == NUL then None
    else Interpret(Tokens(cmdLine.value, 0), 0, None, size)
  }

  /** The names among the tokens, in order. */
  function NamesOf(toks: seq<Token>): seq<seq<char>> {
    if toks == [] then []
    else (if toks[0].Name? then [toks[0].chars] else []) + NamesOf(toks[1..])
  }

  predicate NoBadSwitch(toks: seq<Token>) {
    forall k :: 0 <= k < |toks| ==> !toks[k].BadSwitch?
  }

  /** The mode of the last switch among the tokens, or `mode` when there is none. */
  function LastMode(toks: seq<Token>, mode: int): int {
    if toks == [] then mode
    else LastMode(toks[1..], if toks[0].Switch? then toks[0].mode else mode)
  }

  /**
   * The scan succeeds exactly when no switch is malformed, there is exactly
   * one name, and it fits; the mode is then that of the last switch.
   */
  lemma {:induction false} InterpretMeaning(toks: seq<Token>, mode: int, name: Option<seq<char>>, size: int)
    requires name.Some? ==> |name.value| <= size - 1
    ensures var names := (if name.Some? then [name.value] else []) + NamesOf(toks);
      Interpret(toks, mode, name, size) ==
        if NoBadSwitch(toks) && |names| == 1 && |names[0]| <= size - 1
        then Some((LastMode(toks, mode), names[0]))
        else None
  {
    if toks != [] {
      var rest := toks[1..];
      assert NoBadSwitch(toks) <==> !toks[0].BadSwitch? && NoBadSwitch(rest) by {
        if !toks[0].BadSwitch? && NoBadSwitch(rest) {
          forall k | 0 <= k < |toks| ensures !toks[k].BadSwitch? {
            if k > 0 {
              assert toks[k] == rest[k - 1];
            }
          }
        }
      }
      match toks[0]
      case BadSwitch =>
      case Switch(m) =>
        InterpretMeaning(rest, m, name, size);
      case Name(n, _) =>
        if name.None? && |n| <= size - 1 {
          InterpretMeaning(rest, mode, Some(n), size);
        }
    }
  }

  /** On a non-empty line, the parser accepts exactly the lines with good switches and one name that fits. */
  lemma ParseMeaning(s: seq<char>, size: int)
    requires At(s, 0) != NUL
    ensures var toks := Tokens(s, 0);
      ParseSpec(Some(s), size) ==
        if NoBadSwitch(toks) && |NamesOf(toks)| == 1 && |NamesOf(toks)[0]| <= size - 1
        then Some((LastMode(toks, 0), NamesOf(toks)[0]))
        else None
  {
    InterpretMeaning(Tokens(s, 0), 0, None, size);
  }

  /**
   * A well-formed token: a name is a run of the line without NUL; an unquoted
   * one is non-empty and without blanks, a quoted one without quotes.
   */
  ghost predicate NameOk(t: Token) {
    t.Name? ==> (forall c :: c in t.chars ==> c != NUL && !EndsName(c, t.quoted)) && (!t.quoted ==> |t.chars| > 0)
  }

  /**
   * The line has no tokens exactly when only blanks are left, and every token
   * uses up at least one character: a switch two, a name at least one.
   */
  lemma {:induction false} TokensBound(s: seq<char>, i: nat)
    requires i <= |s|
    ensures Tokens(s, i) == [] <==> At(s, SkipBlanks(s, i)) == NUL
    ensures |Tokens(s, i)| <= |s| - i
    decreases |s| - i
  {
    var j := SkipBlanks(s, i);
    if At(s, j) != NUL {
      if s[j] == '/' {
        TokensAtSwitch(s, i, j);
        if (At(s, j + 1) == '1' || At(s, j + 1) == '2') && EndsSwitch(At(s, j + 2)) {
          TokensBound(s, j + 2);
        }
      } else {
        var quoted := s[j] == '"';
        var b := if quoted then j + 1 else j;
        var e := NameEnd(s, b, quoted);
        var next := if quoted && At(s, e) == '"' then e + 1 else e;
        TokensAtName(s, i, j, b, quoted);
        TokensBound(s, next);
      }
    }
  }

  /** Every name token of the line is well formed. */
  lemma {:induction false} TokensNames(s: seq<char>, i: nat)
    requires i <= |s|
    ensures forall k :: 0 <= k < |Tokens(s, i)| ==> NameOk(Tokens(s, i)[k])
    decreases |s| - i
  {
    var toks := Tokens(s, i);
    var j := SkipBlanks(s, i);
    if At(s, j) != NUL {
      if s[j] == '/' {
        TokensAtSwitch(s, i, j);
        if (At(s, j + 1) == '1' || At(s, j + 1) == '2') && EndsSwitch(At(s, j + 2)) {
          TokensNames(s, j + 2);
          ConsOk(Switch(SwitchMode(s[j + 1])), Tokens(s, j + 2));
        } else {
          assert toks == [BadSwitch];
        }
      } else {
        var quoted := s[j] == '"';
        var b := if quoted then j + 1 else j;
        var e := NameEnd(s, b, quoted);
        var next := if quoted && At(s, e) == '"' then e + 1 else e;
        TokensAtName(s, i, j, b, quoted);
        TokensNames(s, next);
        NameTokenOk(s, j, b, quoted);
        ConsOk(Name(s[b..e], quoted), Tokens(s, next));
      }
    }
  }

  /** The name starting at j (after its opening quote, if any) is well formed. */
  lemma NameTokenOk(s: seq<char>, j: nat, b: nat, quoted: bool)
    requires j < |s| && s[j] != NUL && !IsBlank(s[j])
    requires quoted == (s[j] == '"') && b == (if quoted then j + 1 else j)
    ensures NameOk(Name(s[b..NameEnd(s, b, quoted)], quoted))
  {
    var e := NameEnd(s, b, quoted);
    NameEndScans(s, b, quoted);
    forall c | c in s[b..e] ensures c != NUL && !EndsName(c, quoted) {
      var k :| b <= k < e && s[k] == c;
    }
  }

  /** A well-formed token before well-formed tokens. */
  lemma ConsOk(t: Token, rest: seq<Token>)
    requires NameOk(t) && forall k :: 0 <= k < |rest| ==> NameOk(rest[k])
    ensures forall k :: 0 <= k < |[t] + rest| ==> NameOk(([t] + rest)[k])
  {
    forall k | 0 <= k < |[t] + rest| ensures NameOk(([t] + rest)[k]) {
      if k > 0 {
        assert ([t] + rest)[k] == rest[k - 1];
      }
    }
  }

  /**
   * The parser's single pass, as its loop runs: skip blanks, then take a
   * switch, or a name (failing on a second one or on one too long), until
   * the end of the line.
   */
  function Scan(s: seq<char>, i: nat, mode: int, name: Option<seq<char>>, size: int): (r: Option<(int, seq<char>)>)
    requires i <= |s|
    ensures r.Some? && name.Some? ==> r.value.1 == name.value
    ensures r.Some? && name.None? ==> |r.value.1| <= size - 1
    decreases |s| - i
  {
    var j := SkipBlanks(s, i);
    if At(s, j) == NUL then
      if name.Some? then Some((mode, name.value)) else None
    else if s[j] == '/' then
      if (At(s, j + 1) == '1' || At(s, j + 1) == '2') && EndsSwitch(At(s, j + 2)) then
        Scan(s, j + 2, SwitchMode(s[j + 1]), name, size)
      else
        None
    else if name.Some? then
      None
    else
      var quoted := s[j] == '"';
      var b := if quoted then j + 1 else j;
      var e := NameEnd(s, b, quoted);
      if e - b > size - 1 then None
      else Scan(s, if quoted && At(s, e) == '"' then e + 1 else e, mode, Some(s[b..e]), size)
  }

  /** The single pass and the two-phase reading (tokens, then their verdict) agree everywhere. */
  lemma {:induction false} ScanIsInterpret(s: seq<char>, i: nat, mode: int, name: Option<seq<char>>, size: int)
    requires i <= |s|
    ensures Scan(s, i, mode, name, size) == Interpret(Tokens(s, i), mode, name, size)
    decreases |s| - i
  {
    var j := SkipBlanks(s, i);
    if At(s, j) != NUL {
      if s[j] == '/' {
        ScanAtSwitch(s, i, j, mode, name, size);
        TokensAtSwitch(s, i, j);
        if (At(s, j + 1) == '1' || At(s, j + 1) == '2') && EndsSwitch(At(s, j + 2)) {
          ScanIsInterpret(s, j + 2, SwitchMode(s[j + 1]), name, size);
          InterpretCons(Switch(SwitchMode(s[j + 1])), Tokens(s, j + 2), mode, name, size);
        } else {
          InterpretCons(BadSwitch, [], mode, name, size);
          assert [BadSwitch] + [] == [BadSwitch];
        }
      } else {
        var quoted := s[j] == '"';
        var b := if quoted then j + 1 else j;
        var e := NameEnd(s, b, quoted);
        var next := if quoted && At(s, e) == '"' then e + 1 else e;
        ScanAtName(s, i, j, b, quoted, mode, name, size);
        TokensAtName(s, i, j, b, quoted);
        InterpretCons(Name(s[b..e], quoted), Tokens(s, next), mode, name, size);
        if name.None? && e - b <= size - 1 {
          ScanIsInterpret(s, next, mode, Some(s[b..e]), size);
        }
      }
    }
  }

  /** Interpret on a first token and the rest. */
  lemma InterpretCons(t: Token, rest: seq<Token>, mode: int, name: Option<seq<char>>, size: int)
    ensures Interpret([t] + rest, mode, name, size) ==
      if t.BadSwitch? then None
      else if t.Switch? then Interpret(rest, t.mode, name, size)
      else if name.Some? || |t.chars| > size - 1 then None
      else Interpret(rest, mode, Some(t.chars), size)
  {
    assert ([t] + rest)[0] == t && ([t] + rest)[1..] == rest;
  }

  /** Tokens after the blanks at i: a switch, or a malformed one, at j. */
  lemma TokensAtSwitch(s: seq<char>, i: nat, j: nat)
    requires i <= j <= |s| && j == SkipBlanks(s, i) && At(s, j) == '/'
    ensures Tokens(s, i) ==
      if (At(s, j + 1) == '1' || At(s, j + 1) == '2') && EndsSwitch(At(s, j + 2))
      then [Switch(SwitchMode(s[j + 1]))] + Tokens(s, j + 2)
      else [BadSwitch]
  {
  }

  /** Tokens after the blanks at i: a name at j, whose characters start at b. */
  lemma TokensAtName(s: seq<char>, i: nat, j: nat, b: nat, quoted: bool)
    requires i <= j < |s| && j == SkipBlanks(s, i) && At(s, j) != NUL && s[j] != '/'
    requires quoted == (s[j] == '"') && b == (if quoted then j + 1 else j)
    ensures var e := NameEnd(s, b, quoted);
      Tokens(s, i) == [Name(s[b..e], quoted)] + Tokens(s, if quoted && At(s, e) == '"' then e + 1 else e)
  {
  }

  /** Scan after the blanks at i: the end of the line. */
  lemma ScanAtEnd(s: seq<char>, i: nat, mode: int, name: Option<seq<char>>, size: int)
    requires i <= |s| && At(s, SkipBlanks(s, i)) == NUL
    ensures Scan(s, i, mode, name, size) == if name.Some? then Some((mode, name.value)) else None
  {
  }

  /** Scan after the blanks at i: a switch at j. */
  lemma ScanAtSwitch(s: seq<char>, i: nat, j: nat, mode: int, name: Option<seq<char>>, size: int)
    requires i <= j <= |s| && j == SkipBlanks(s, i) && At(s, j) == '/'
    ensures Scan(s, i, mode, name, size) ==
      if (At(s, j + 1) == '1' || At(s, j + 1) == '2') && EndsSwitch(At(s, j + 2))
      then Scan(s, j + 2, SwitchMode(s[j + 1]), name, size)
      else None
  {
  }

  /** Scan after the blanks at i: a name at j, whose characters start at b. */
  lemma ScanAtName(s: seq<char>, i: nat, j: nat, b: nat, quoted: bool, mode: int, name: Option<seq<char>>, size: int)
    requires i <= j < |s| && j == SkipBlanks(s, i) && At(s, j) != NUL && s[j] != '/'
    requires quoted == (s[j] == '"') && b == (if quoted then j + 1 else j)
    ensures var e := NameEnd(s, b, quoted);
      Scan(s, i, mode, name, size) ==
        if name.Some? || e - b > size - 1 then None
        else Scan(s, if quoted && At(s, e) == '"' then e + 1 else e, mode, Some(s[b..e]), size)
  {
  }

  /** The blank-skipping loop: the first non-blank at or after i. */
  method SkipBlankRun(s: seq<char>, i: nat) returns (p: nat)
    requires i <= |s|
    ensures p == SkipBlanks(s, i)
  {
    p := i;
    while IsBlank(At(s, p))
      invariant i <= p <= |s| && SkipBlanks(s, p) == SkipBlanks(s, i)
      decreases |s| - p
    {
      p := p + 1;
    }
  }

  /**
   * The copy of one file name starting at b into `filename`, stopping at its
   * end and leaving p past a closing quote; it fails, with nothing promised
   * about the buffer, as soon as a character would not leave room for the NUL.
   */
  method CopyName(s: seq<char>, b: nat, quoted: bool, filename: array<char>) returns (ok: bool, p: nat)
    requires b <= |s| && filename.Length >= 1
    modifies filename
    ensures var e := NameEnd(s, b, quoted);
      (ok <==> e - b <= filename.Length - 1) &&
      (ok ==> p == (if quoted && At(s, e) == '"' then e + 1 else e) &&
              filename[..e - b] == s[b..e] && filename[e - b] == NUL)
  {
    ghost var e := NameEnd(s, b, quoted);
    var out := 0;
    p := b;
    while At(s, p) != NUL
      invariant b <= p <= e && out == p - b && out < filename.Length
      invariant NameEnd(s, p, quoted) == e
      invariant filename[..out] == s[b..p]
      decreases |s| - p
    {
      if quoted {
        if s[p] == '"' {
          filename[out] := NUL;
          return true, p + 1;
        }
      } else {
        if IsBlank(s[p]) {
          break;
        }
      }
      if out >= filename.Length - 1 {
        return false, p;
      }
      filename[out] := s[p];
      out := out + 1;
      p := p + 1;
    }
    filename[out] := NUL;
    return true, p;
  }

  /** The name stored in the buffer, NUL-terminated. */
  ghost predicate Stored(filename: array<char>, n: seq<char>)
    reads filename
  {
    |n| < filename.Length && filename[..|n|] == n && filename[|n|] == NUL
  }

  /**
   * A switch at j (the first non-blank after i): a good one sets the mode and
   * steps over its two characters; a malformed one ends the scan in failure.
   */
  method TakeSwitch(s: seq<char>, ghost i: nat, j: nat, mode: int, ghost name: Option<seq<char>>, ghost size: int)
    returns (accepted: bool, newMode: int, next: nat)
    requires i <= j < |s| && j == SkipBlanks(s, i) && s[j] == '/'
    ensures accepted ==> i < next <= |s| && Scan(s, i, mode, name, size) == Scan(s, next, newMode, name, size)
    ensures accepted <==> (At(s, j + 1) == '1' || At(s, j + 1) == '2') && EndsSwitch(At(s, j + 2))
    ensures accepted ==> next == j + 2 && newMode == SwitchMode(s[j + 1])
    ensures !accepted ==> Scan(s, i, mode, name, size) == None
  {
    ScanAtSwitch(s, i, j, mode, name, size);
    if At(s, j + 1) == '1' && EndsSwitch(At(s, j + 2)) {
      return true, 0, j + 2;
    } else if At(s, j + 1) == '2' && EndsSwitch(At(s, j + 2)) {
      return true, 1, j + 2;
    }
    return false, mode, j;
  }

  /**
   * The first name at j (the first non-blank after i), opened by a quote or
   * not, copied into `filename` by CopyName; the scan fails if it does not fit.
   */
  method TakeName(s: seq<char>, ghost i: nat, j: nat, ghost mode: int, filename: array<char>)
    returns (accepted: bool, next: nat, ghost name: seq<char>)
    requires i <= j < |s| && j == SkipBlanks(s, i) && At(s, j) != NUL && s[j] != '/'
    requires filename.Length >= 1
    modifies filename
    ensures accepted ==>
      i < next <= |s| && Stored(filename, name) &&
      Scan(s, i, mode, None, filename.Length) == Scan(s, next, mode, Some(name), filename.Length)
    ensures !accepted ==> Scan(s, i, mode, None, filename.Length) == None
    ensures accepted ==>
      var quoted := s[j] == '"';
      var b := if quoted then j + 1 else j;
      var e := NameEnd(s, b, quoted);
      name == s[b..e] && next == (if quoted && At(s, e) == '"' then e + 1 else e)
  {
    var quoted := false;
    var b := j;
    if s[j] == '"' {
      quoted := true;
      b := j + 1;
    }
    ScanAtName(s, i, j, b, quoted, mode, None, filename.Length);
    ghost var e := NameEnd(s, b, quoted);
    name := s[b..e];
    accepted, next := CopyName(s, b, quoted, filename);
  }

  /**
   * The parser as it walks the line: it leaves the file name, NUL-terminated,
   * in `filename` (whose length is the buffer size) and returns the palette mode.
   */
  method ParseCommandLine(cmdLine: Option<seq<char>>, filename: array<char>) returns (ok: bool, paletteMode: int)
    requires filename.Length >= 1
    modifies filename
    ensures var r := ParseSpec(cmdLine, filename.Length);
      (ok <==> r.Some?) &&
      (ok ==> paletteMode == r.value.0 && |r.value.1| < filename.Length &&
              filename[..|r.value.1|] == r.value.1 && filename[|r.value.1|] == NUL)
  {
    if cmdLine.None? || At(cmdLine.value, 0) == NUL {
      return false, 0;
    }
    var s := cmdLine.value;
    ghost var spec := ParseSpec(cmdLine, filename.Length);
    ScanIsInterpret(s, 0, 0, None, filename.Length);
    paletteMode := 0;
    var hasFilename := false;
    ghost var name: Option<seq<char>> := None;
    var p := 0;
    while At(s, p) != NUL
      invariant p <= |s|
      invariant hasFilename <==> name.Some?
      invariant name.Some? ==> Stored(filename, name.value)
      invariant Scan(s, p, paletteMode, name, filename.Length) == spec
      decreases |s| - p
    {
      ghost var start := p;
      p := SkipBlankRun(s, p);
      if At(s, p) == NUL {
        ScanAtEnd(s, start, paletteMode, name, filename.Length);
        break;
      }
      var accepted;
      if s[p] == '/' {
        accepted, paletteMode, p := TakeSwitch(s, start, p, paletteMode, name, filename.Length);
      } else if hasFilename {
        ScanAtName(s, start, p, if s[p] == '"' then p + 1 else p, s[p] == '"', paletteMode, name, filename.Length);
        return false, paletteMode;
      } else {
        ghost var taken;
        accepted, p, taken := TakeName(s, start, p, paletteMode, filename);
        if accepted {
          hasFilename := true;
          name := Some(taken);
        }
      }
      if !accepted {
        return false, paletteMode;
      }
    }
    ScanAtEnd(s, p, paletteMode, name, filename.Length);
    return hasFilename, paletteMode;
  }
}
