/**
 * The scene-command line parser (tools/scene_parser/parser.cc): one line of a scene
 * file is split into whitespace-separated tokens, the first token names a command,
 * the remaining ones are checked and converted according to the command's argument
 * types, and the command runs.
 *
 * The command table lookup (CmdSearchCommand), the command's Run, and strtod are
 * capabilities of the scene interface and the C library; they enter as fields of
 * `Env` and `Command`. A C string is a `string` read through `At`, which yields NUL
 * at and past its end.
 */
module SceneParser {
  import opened Optional

  const NUL: char := '\0'

  /** Capacity of parse_line's argument array. */
  const MAX_ARGS: int := 16

  /** Size of parse_line's token buffer. */
  const TOKEN_BUFFER_SIZE: int := 1024

  // Parser error numbers: consecutive from 1024 so as not to clash with the
  // scene interface's numbers.
  const PSR_ERR_NONE: int := 1024
  const PSR_ERR_UNKNOWN_COMMAND: int := 1025
  const PSR_ERR_MANY_ARGS: int := 1026
  const PSR_ERR_FEW_ARGS: int := 1027
  const PSR_ERR_BAD_NUMBER: int := 1028
  const PSR_ERR_BAD_ENUM: int := 1029
  const PSR_ERR_NAME_EXISTS: int := 1030
  const PSR_ERR_NAME_NOT_FOUND: int := 1031

  // Scene interface error numbers, in the order of the error table; the scene
  // interface header is not part of this model, so they are taken as 0, 1, 2, ...
  const SI_ERR_NONE: int := 0
  const SI_ERR_PLUGIN_NOT_FOUND: int := 1
  const SI_ERR_NO_MEMORY: int := 9

  /** An entry ID of the scene interface; `BadId` is SI_BADID. */
  datatype EntryId = BadId | Id(n: int)

  /** The numeric symbols symbol_to_number knows. */
  datatype Symbol =
    | OrderSRT | OrderSTR | OrderRST | OrderRTS | OrderTRS | OrderTSR
    | OrderXYZ | OrderXZY | OrderYXZ | OrderYZX | OrderZXY | OrderZYX
    | FixedGridSampler | AdaptiveGridSampler

  datatype LightType = PointLight | GridLight | SphereLight | DomeLight

  /** What an argument's `num` holds once converted. */
  datatype Num = NoNum | Scalar(value: real) | SymbolNum(symbol: Symbol) | LightNum(light: LightType)

  /** CommandArgument: the token, and the number or ID it was converted to. */
  datatype Argument = Argument(str: string, num: Num, id: EntryId)

  datatype ArgType =
    | NewEntryIdArg | EntryIdArg | NumberArg | LightTypeArg | PropertyNameArg
    | GroupNameArg | FilePathArg | StringArg | CommandNameArg

  /**
   * CommandResult: whether Run succeeded, the scene interface's error number when it
   * did not (SiGetErrorNo), and the entry it created, if any.
   */
  datatype CommandResult = CommandResult(success: bool, errorNo: int, newEntryName: Option<string>, newEntryId: EntryId)

  /** A command: its argument types (arg_count is their number) and its Run. */
  datatype Command = Command(argTypes: seq<ArgType>, run: seq<Argument> -> CommandResult)

  /** strtod's answer: the value, and the index of the first character it did not consume. */
  datatype Strtod = Strtod(value: real, end: nat)

  /** The parser's environment: the command table and strtod. */
  datatype Env = Env(search: string -> Option<Command>, strtod: string -> Strtod)

  // ---------------------------------------------------------------------------
  // Tokenizing
  // ---------------------------------------------------------------------------

  /** isspace in the "C" locale. */
  predicate IsSpace(c: char)
  {
    c == ' ' || c == '\t' || c == '\n' || c == '\U{0B}' || c == '\U{0C}' || c == '\r'
  }

  /** The character at index i of a C string: NUL at and past the end. */
  function At(line: string, i: nat): char
  {
    if i < |line| then line[i] else NUL
  }

  /** The first index at or after i that is NUL or not whitespace. */
  function SkipSpace(line: string, i: nat): (j: nat)
    ensures i <= j && (j == i || j <= |line|)
    ensures At(line, j) == NUL || !IsSpace(At(line, j))
    decreases |line| - i
  {
    if At(line, i) != NUL && IsSpace(At(line, i)) then SkipSpace(line, i + 1) else i
  }

  /** The first index at or after i that is NUL or whitespace: the end of a token. */
  function TokenEnd(line: string, i: nat): (j: nat)
    ensures i <= j && (j == i || j <= |line|)
    ensures At(line, j) == NUL || IsSpace(At(line, j))
    decreases |line| - i
  {
    if At(line, i) != NUL && !IsSpace(At(line, i)) then TokenEnd(line, i + 1) else i
  }

  /** Everything SkipSpace passes over is whitespace other than NUL. */
  lemma {:induction false} SkipSpaceSpan(line: string, i: nat)
    ensures forall k :: i <= k < SkipSpace(line, i) ==> At(line, k) != NUL && IsSpace(At(line, k))
    decreases |line| - i
  {
    if At(line, i) != NUL && IsSpace(At(line, i)) {
      SkipSpaceSpan(line, i + 1);
    }
  }

  /** Everything TokenEnd passes over is neither whitespace nor NUL. */
  lemma {:induction false} TokenEndSpan(line: string, i: nat)
    ensures forall k :: i <= k < TokenEnd(line, i) ==> At(line, k) != NUL && !IsSpace(At(line, k))
    decreases |line| - i
  {
    if At(line, i) != NUL && !IsSpace(At(line, i)) {
      TokenEndSpan(line, i + 1);
    }
  }

  /**
   * The tokens tokenize_line finds from index i with room for maxArgs more: a scan
   * stops at NUL, at a '\n' met where a token could start (that is, directly after a
   * token, since a '\n' inside a run of whitespace is skipped like any other), or
   * when maxArgs tokens have been taken.
   */
  function Tokens(line: string, i: nat, maxArgs: int): seq<string>
    decreases |line| - i
  {
    if At(line, i) == NUL || At(line, i) == '\n' || maxArgs <= 0 then []
    else
      var s := SkipSpace(line, i);
      if At(line, s) == NUL then []
      else
        var e := TokenEnd(line, s);
        [line[s..e]] + Tokens(line, e, maxArgs - 1)
  }

  /** A token: non-empty, and neither whitespace nor NUL anywhere in it. */
  predicate IsToken(t: string)
  {
    |t| > 0 && forall k :: 0 <= k < |t| ==> t[k] != NUL && !IsSpace(t[k])
  }

  /** At most maxArgs tokens come out, each of them a token. */
  lemma {:induction false} TokensShape(line: string, i: nat, maxArgs: int)
    ensures |Tokens(line, i, maxArgs)| <= if maxArgs < 0 then 0 else maxArgs
    ensures forall t :: t in Tokens(line, i, maxArgs) ==> IsToken(t)
    decreases |line| - i
  {
    if At(line, i) == NUL || At(line, i) == '\n' || maxArgs <= 0 {
    } else {
      var s := SkipSpace(line, i);
      if At(line, s) != NUL {
        var e := TokenEnd(line, s);
        TokenEndSpan(line, s);
        TokensShape(line, e, maxArgs - 1);
        var t := line[s..e];
        assert forall k :: 0 <= k < |t| ==> t[k] == At(line, s + k);
      }
    }
  }

  /** The characters of s that are not whitespace, in order. */
  function Squeeze(s: string): (r: string)
    ensures |r| <= |s|
  {
    if s == [] then [] else (if IsSpace(s[0]) then [] else [s[0]]) + Squeeze(s[1..])
  }

  /** The tokens of a list laid end to end. */
  function Concat(ts: seq<string>): string
  {
    if ts == [] then [] else ts[0] + Concat(ts[1..])
  }

  lemma {:induction false} SqueezeAppend(a: string, b: string)
    ensures Squeeze(a + b) == Squeeze(a) + Squeeze(b)
    decreases |a|
  {
    if a == [] {
      assert a + b == b;
    } else {
      assert (a + b)[1..] == a[1..] + b;
      SqueezeAppend(a[1..], b);
    }
  }

  /** Squeezing a token leaves it as it is. */
  lemma {:induction false} SqueezeToken(s: string)
    requires forall k :: 0 <= k < |s| ==> !IsSpace(s[k])
    ensures Squeeze(s) == s
    decreases |s|
  {
    if s != [] {
      SqueezeToken(s[1..]);
      assert [s[0]] + s[1..] == s;
    }
  }

  /** No NUL and no '\n' anywhere in the line. */
  predicate SingleLine(line: string)
  {
    forall k :: 0 <= k < |line| ==> line[k] != NUL && line[k] != '\n'
  }

  /** The length of the run of non-whitespace characters at the front of s. */
  function Run(s: string): (n: nat)
    ensures n <= |s|
  {
    if s == [] || IsSpace(s[0]) then 0 else 1 + Run(s[1..])
  }

  /** The run is all non-whitespace and ends at whitespace or at the end of s. */
  lemma {:induction false} RunSpan(s: string)
    ensures forall k :: 0 <= k < Run(s) ==> !IsSpace(s[k])
    ensures Run(s) < |s| ==> IsSpace(s[Run(s)])
    decreases |s|
  {
    if s != [] && !IsSpace(s[0]) {
      RunSpan(s[1..]);
    }
  }

  /** The words of s: its maximal runs of non-whitespace characters, in order. */
  function Words(s: string): seq<string>
    decreases |s|
  {
    if s == [] then []
    else if IsSpace(s[0]) then Words(s[1..])
    else [s[..Run(s)]] + Words(s[Run(s)..])
  }

  /** The first m words, or all of them when there are fewer. */
  function Take(ws: seq<string>, m: int): (r: seq<string>)
    ensures |r| <= |ws| && r == ws[..|r|]
    ensures |r| == if m <= 0 then 0 else if m < |ws| then m else |ws|
  {
    if m <= 0 then [] else if m < |ws| then ws[..m] else ws
  }

  /** Joined together, the words are the string with its whitespace removed. */
  lemma {:induction false} WordsSqueeze(s: string)
    ensures Concat(Words(s)) == Squeeze(s)
    decreases |s|
  {
    if s != [] {
      if IsSpace(s[0]) {
        WordsSqueeze(s[1..]);
      } else {
        var n := Run(s);
        RunSpan(s);
        WordsSqueeze(s[n..]);
        assert s == s[..n] + s[n..];
        SqueezeAppend(s[..n], s[n..]);
        SqueezeToken(s[..n]);
        var ws := Words(s);
        assert ws[1..] == Words(s[n..]);
      }
    }
  }

  /** Whitespace skipped from i holds no word. */
  lemma {:induction false} WordsSkip(line: string, i: nat)
    requires i <= |line|
    ensures SkipSpace(line, i) <= |line|
    ensures Words(line[i..]) == Words(line[SkipSpace(line, i)..])
    decreases |line| - i
  {
    if At(line, i) != NUL && IsSpace(At(line, i)) {
      WordsSkip(line, i + 1);
      assert line[i..][1..] == line[i + 1..];
    }
  }

  /** TokenEnd stops where the run of non-whitespace ends. */
  lemma {:induction false} TokenEndRun(line: string, s: nat)
    requires s <= |line| && SingleLine(line)
    ensures TokenEnd(line, s) == s + Run(line[s..])
    decreases |line| - s
  {
    if s < |line| && !IsSpace(line[s]) {
      TokenEndRun(line, s + 1);
      assert line[s..][1..] == line[s + 1..];
    }
  }

  /** A word starts where the whitespace ends: it runs to TokenEnd, and the rest of the words follow. */
  lemma WordsFront(line: string, s: nat)
    requires s < |line| && SingleLine(line) && !IsSpace(line[s])
    ensures s < TokenEnd(line, s) <= |line|
    ensures Words(line[s..]) == [line[s..TokenEnd(line, s)]] + Words(line[TokenEnd(line, s)..])
  {
    var e := TokenEnd(line, s);
    var t := line[s..];
    assert e == s + Run(t) by {
      TokenEndRun(line, s);
    }
    var n := e - s;
    assert Words(t) == [t[..n]] + Words(t[n..]) by {
      assert t[0] == line[s];
      WordsRun(t);
    }
    assert t[..n] == line[s..e];
    assert t[n..] == line[e..];
  }

  lemma WordsRun(t: string)
    requires t != [] && !IsSpace(t[0])
    ensures Words(t) == [t[..Run(t)]] + Words(t[Run(t)..])
  {
  }

  /** A token at s, after the whitespace from i, up to e: it comes first, then the tokens after it with one less room. */
  lemma TokensFront(line: string, i: nat, m: int, s: nat, e: nat)
    requires i < |line| && SingleLine(line) && m > 0
    requires s == SkipSpace(line, i) && s < |line| && e == TokenEnd(line, s)
    ensures Tokens(line, i, m) == [line[s..e]] + Tokens(line, e, m - 1)
  {
    assert At(line, i) == line[i];
    assert At(line, s) == line[s];
  }

  lemma TakeFront(w: string, rest: seq<string>, m: int)
    requires m > 0
    ensures Take([w] + rest, m) == [w] + Take(rest, m - 1)
  {
  }

  /** One word more: if the tokens after the word at s are the words there, the tokens from i are the words from i. */
  lemma WordsStep(line: string, i: nat, m: int, s: nat, e: nat)
    requires i < |line| && SingleLine(line) && m > 0
    requires s == SkipSpace(line, i) && s < |line| && e == TokenEnd(line, s)
    requires Tokens(line, e, m - 1) == Take(Words(line[e..]), m - 1)
    ensures Tokens(line, i, m) == Take(Words(line[i..]), m)
  {
    var w, rest := line[s..e], Words(line[e..]);
    assert Tokens(line, i, m) == [w] + Take(rest, m - 1) by {
      TokensFront(line, i, m, s, e);
    }
    assert Words(line[i..]) == [w] + rest by {
      WordsSkip(line, i);
      WordsFront(line, s);
    }
    TakeFront(w, rest, m);
  }

  /**
   * On a line without NUL and without '\n', the tokens from i with room for m are
   * the first m words of the rest of the line: the scan neither splits nor joins
   * words, and stops only when the words run out or m have been taken.
   */
  lemma {:induction false} TokensAreWords(line: string, i: nat, m: int)
    requires i <= |line| && SingleLine(line)
    ensures Tokens(line, i, m) == Take(Words(line[i..]), m)
    decreases |line| - i
  {
    if i == |line| {
      assert line[i..] == [];
    } else if m > 0 {
      var s := SkipSpace(line, i);
      if s == |line| {
        WordsSkip(line, i);
        assert line[s..] == [];
      } else {
        var e := TokenEnd(line, s);
        TokensAreWords(line, e, m - 1);
        WordsStep(line, i, m, s, e);
      }
    }
  }

  /**
   * What may follow a line's text without changing its tokens: nothing, a NUL (the
   * end of a C string), a lone '\n', or a '\n' directly after a token, where
   * tokenize_line stops whatever comes after it.
   */
  predicate StopsTokens(l: string, t: string)
  {
    t == [] || t[0] == NUL || t == ['\n'] || (t[0] == '\n' && |l| > 0 && !IsSpace(l[|l| - 1]))
  }

  /** Skipping whitespace inside l is the same in l + t; reaching the end of l, it goes on in t. */
  lemma {:induction false} SkipSpaceExtend(l: string, t: string, j: nat)
    requires j <= |l| && SingleLine(l)
    ensures SkipSpace(l, j) <= |l|
    ensures SkipSpace(l, j) < |l| ==> SkipSpace(l + t, j) == SkipSpace(l, j)
    ensures SkipSpace(l, j) == |l| ==> SkipSpace(l + t, j) == SkipSpace(l + t, |l|)
    decreases |l| - j
  {
    if j < |l| {
      assert At(l + t, j) == At(l, j) == l[j];
      if IsSpace(l[j]) {
        SkipSpaceExtend(l, t, j + 1);
      }
    }
  }

  /** A token of l ends at the same place in l + t when t starts with nothing, a NUL or a '\n'. */
  lemma {:induction false} TokenEndExtend(l: string, t: string, s: nat)
    requires s <= |l| && SingleLine(l)
    requires t == [] || t[0] == NUL || t[0] == '\n'
    ensures TokenEnd(l + t, s) == TokenEnd(l, s)
    decreases |l| - s
  {
    if s < |l| {
      assert At(l + t, s) == At(l, s) == l[s];
      if !IsSpace(l[s]) {
        TokenEndExtend(l, t, s + 1);
      }
    } else {
      assert At(l + t, s) == (if t == [] then NUL else t[0]);
    }
  }

  /** One token more: if the tokens after the token at s agree in l and l + t, so do the tokens from i. */
  lemma ExtendStep(l: string, t: string, i: nat, m: int, s: nat, e: nat)
    requires i < |l| && SingleLine(l) && m > 0 && (t == [] || t[0] == NUL || t[0] == '\n')
    requires s == SkipSpace(l, i) && s < |l| && e == TokenEnd(l, s)
    requires Tokens(l + t, e, m - 1) == Tokens(l, e, m - 1)
    ensures Tokens(l + t, i, m) == Tokens(l, i, m)
  {
    var L := l + t;
    assert At(L, i) == l[i];
    SkipSpaceExtend(l, t, i);
    TokenEndExtend(l, t, s);
    assert At(L, s) == l[s];
    assert L[s..e] == l[s..e];
    assert Tokens(L, i, m) == [l[s..e]] + Tokens(L, e, m - 1);
    TokensFront(l, i, m, s, e);
  }

  /** Only whitespace left in l: no tokens in l, and none in l + t either when t stops the tokenizer. */
  lemma ExtendBlank(l: string, t: string, i: nat, m: int)
    requires i < |l| && SingleLine(l) && StopsTokens(l, t) && m > 0
    requires SkipSpace(l, i) == |l|
    ensures Tokens(l + t, i, m) == Tokens(l, i, m) == []
  {
    var L := l + t;
    assert At(L, i) == l[i];
    SkipSpaceExtend(l, t, i);
    SkipSpaceSpan(l, i);
    assert At(l, |l| - 1) == l[|l| - 1];
    assert At(L, |l|) == (if t == [] then NUL else t[0]);
    if t == ['\n'] {
      assert At(L, |l| + 1) == NUL;
      assert SkipSpace(L, |l| + 1) == |L|;
    }
  }

  /** Whatever stops the tokenizer, the tokens of l + t are those of l. */
  lemma {:induction false} TokensExtend(l: string, t: string, i: nat, m: int)
    requires i <= |l| && SingleLine(l) && StopsTokens(l, t)
    ensures Tokens(l + t, i, m) == Tokens(l, i, m)
    decreases |l| - i
  {
    if i == |l| {
      assert At(l + t, i) == (if t == [] then NUL else t[0]);
    } else if m > 0 {
      var s := SkipSpace(l, i);
      SkipSpaceExtend(l, t, i);
      if s < |l| {
        var e := TokenEnd(l, s);
        TokensExtend(l, t, e, m - 1);
        ExtendStep(l, t, i, m, s, e);
      } else {
        ExtendBlank(l, t, i, m);
      }
    }
  }

  /**
   * The tokens of a line l followed by whatever stops the tokenizer (a NUL, a
   * trailing '\n', or a '\n' directly after a token with anything after it) are the
   * first m words of l from i on; what comes after the stop is never read.
   */
  lemma TokensStopWords(l: string, t: string, i: nat, m: int)
    requires i <= |l| && SingleLine(l) && StopsTokens(l, t)
    ensures Tokens(l + t, i, m) == Take(Words(l[i..]), m)
  {
    TokensExtend(l, t, i, m);
    TokensAreWords(l, i, m);
  }

  /** With room for every word, the tokens joined together are the line with its whitespace removed. */
  lemma TokensSqueeze(line: string, i: nat, maxArgs: int)
    requires i <= |line| && SingleLine(line)
    requires maxArgs >= |Words(line[i..])|
    ensures Concat(Tokens(line, i, maxArgs)) == Squeeze(line[i..])
  {
    TokensAreWords(line, i, maxArgs);
    WordsSqueeze(line[i..]);
  }

  /** The token buffer's contents after tokenizing: each token followed by NUL. */
  function Layout(ts: seq<string>): (buf: string)
    ensures |buf| >= |ts|
  {
    if ts == [] then [] else ts[0] + [NUL] + Layout(ts[1..])
  }

  /** The bytes the tokens take in the token buffer. */
  function TokenBytes(ts: seq<string>): nat
  {
    |Layout(ts)|
  }

  lemma {:induction false} LayoutAppend(ts: seq<string>, t: string)
    ensures Layout(ts + [t]) == Layout(ts) + t + [NUL]
    decreases |ts|
  {
    if ts == [] {
      assert [t][1..] == [];
    } else {
      assert (ts + [t])[1..] == ts[1..] + [t];
      LayoutAppend(ts[1..], t);
    }
  }

  /**
   * The longest prefix of the tokens whose layout fits in `room` bytes: what a
   * tokenizer that honoured tokenized_size would hand back.
   */
  function Fit(ts: seq<string>, room: int): seq<string>
  {
    if ts == [] || |ts[0]| + 1 > room then [] else [ts[0]] + Fit(ts[1..], room - |ts[0]| - 1)
  }

  /** Fit gives a prefix whose layout fits, and all of the tokens when they all fit. */
  lemma {:induction false} FitWithin(ts: seq<string>, room: int)
    ensures |Fit(ts, room)| <= |ts| && Fit(ts, room) == ts[..|Fit(ts, room)|]
    ensures TokenBytes(Fit(ts, room)) <= if room < 0 then 0 else room
    ensures TokenBytes(ts) <= room ==> Fit(ts, room) == ts
    decreases |ts|
  {
    if ts != [] {
      FitWithin(ts[1..], room - |ts[0]| - 1);
      if |ts[0]| + 1 <= room {
        assert [ts[0]] + ts[1..][..|Fit(ts[1..], room - |ts[0]| - 1)|] == ts[..1 + |Fit(ts[1..], room - |ts[0]| - 1)|];
      }
    }
  }

  /** A line holding one word of n characters. */
  function Word(n: nat): (w: string)
    ensures |w| == n && forall k :: 0 <= k < n ==> w[k] == 'x'
  {
    seq(n, _ => 'x')
  }

  lemma {:induction false} WordEnd(n: nat, i: nat)
    requires i <= n
    ensures TokenEnd(Word(n), i) == n
    decreases n - i
  {
    if i < n {
      WordEnd(n, i + 1);
    }
  }

  /**
   * tokenize_line as written ignores tokenized_size, and parse_line hands it a
   * 1024-byte buffer: a line of one 1024-character word is one token needing 1025
   * bytes, one more than the buffer holds.
   */
  lemma TokenBufferOverrun()
    ensures var line := Word(TOKEN_BUFFER_SIZE);
      Tokens(line, SkipSpace(line, 0), MAX_ARGS) == [line] && TokenBytes([line]) > TOKEN_BUFFER_SIZE
  {
    var line := Word(TOKEN_BUFFER_SIZE);
    assert SkipSpace(line, 0) == 0;
    WordEnd(TOKEN_BUFFER_SIZE, 0);
    assert line[0..TOKEN_BUFFER_SIZE] == line;
    assert Tokens(line, TOKEN_BUFFER_SIZE, MAX_ARGS - 1) == [];
  }

  /** The skip-whitespace loop of tokenize_line. */
  method SkipSpaces(line: string, i: nat) returns (j: nat)
    ensures j == SkipSpace(line, i)
  {
    j := i;
    while At(line, j) != NUL && IsSpace(At(line, j))
      invariant i <= j
      invariant SkipSpace(line, j) == SkipSpace(line, i)
      decreases |line| - j
    {
      j := j + 1;
    }
  }

  /** The token-scanning loop of tokenize_line: the index where the token from i ends. */
  method ScanToken(line: string, i: nat) returns (j: nat)
    ensures j == TokenEnd(line, i)
  {
    j := i;
    while At(line, j) != NUL && !IsSpace(At(line, j))
      invariant i <= j
      invariant TokenEnd(line, j) == TokenEnd(line, i)
      decreases |line| - j
    {
      j := j + 1;
    }
  }

  /** Copies a token and its terminating NUL into the buffer at dst. */
  method CopyToken(tokenized: array<char>, dst: nat, t: string)
    requires dst + |t| + 1 <= tokenized.Length
    modifies tokenized
    ensures tokenized[..dst + |t| + 1] == old(tokenized[..dst]) + t + [NUL]
  {
    var k := 0;
    while k < |t|
      invariant 0 <= k <= |t|
      invariant tokenized[..dst + k] == old(tokenized[..dst]) + t[..k]
    {
      tokenized[dst + k] := t[k];
      assert tokenized[..dst + k + 1] == tokenized[..dst + k] + [t[k]];
      assert t[..k + 1] == t[..k] + [t[k]];
      k := k + 1;
    }
    tokenized[dst + |t|] := NUL;
    assert tokenized[..dst + |t| + 1] == tokenized[..dst + |t|] + [NUL];
    assert t[..|t|] == t;
  }

  /** One round of tokenize_line's outer loop, on the specification side. */
  lemma TokensStep(line: string, src: nat, m: int, room: int, s: nat, e: nat)
    requires At(line, src) != NUL && At(line, src) != '\n' && m > 0
    requires s == SkipSpace(line, src) && At(line, s) != NUL && e == TokenEnd(line, s)
    ensures s < e <= |line|
    ensures Tokens(line, src, m) == [line[s..e]] + Tokens(line, e, m - 1)
    ensures e - s + 1 > room ==> Fit(Tokens(line, src, m), room) == []
    ensures e - s + 1 <= room ==>
      Fit(Tokens(line, src, m), room) == [line[s..e]] + Fit(Tokens(line, e, m - 1), room - (e - s) - 1)
  {
    var ts := Tokens(line, src, m);
    assert ts == [line[s..e]] + Tokens(line, e, m - 1);
    assert ts[1..] == Tokens(line, e, m - 1);
  }

  /**
   * One round of tokenize_line's outer loop from src, with `dst` bytes of the buffer
   * used: skip whitespace, scan a token, and copy it with its NUL when it fits.
   * `found` is false when there is no further token or it would not fit.
   */
  method NextToken(line: string, src: nat, tokenized: array<char>, dst: nat, m: int) returns (found: bool, t: string, e: nat)
    requires At(line, src) != NUL && At(line, src) != '\n' && m > 0 && dst <= tokenized.Length
    modifies tokenized
    ensures !found ==> Fit(Tokens(line, src, m), tokenized.Length - dst) == [] && unchanged(tokenized)
    ensures found ==> src < e && dst + |t| + 1 <= tokenized.Length
    ensures found ==> Fit(Tokens(line, src, m), tokenized.Length - dst)
                      == [t] + Fit(Tokens(line, e, m - 1), tokenized.Length - (dst + |t| + 1))
    ensures found ==> tokenized[..dst + |t| + 1] == old(tokenized[..dst]) + t + [NUL]
  {
    var s := SkipSpaces(line, src);
    if At(line, s) == NUL {
      return false, [], src;
    }
    e := ScanToken(line, s);
    TokensStep(line, src, m, tokenized.Length - dst, s, e);
    t := line[s..e];
    if dst + |t| + 1 > tokenized.Length {
      return false, t, e;
    }
    CopyToken(tokenized, dst, t);
    found := true;
  }

  /** The bookkeeping of one round of tokenize_line: the token joins the list and its bytes the used part. */
  lemma TokenizeRound(want: seq<string>, tokens: seq<string>, t: string, rest: seq<string>, next: seq<string>)
    requires want == tokens + rest && rest == [t] + next
    ensures want == (tokens + [t]) + next
    ensures TokenBytes(tokens + [t]) == TokenBytes(tokens) + |t| + 1
    ensures Layout(tokens + [t]) == Layout(tokens) + t + [NUL]
  {
    LayoutAppend(tokens, t);
  }

  /** What tokenize_line has done after some rounds: the tokens so far laid out in the buffer, the rest still due. */
  ghost predicate Tokenized(line: string, want: seq<string>, tokens: seq<string>, src: nat, buffer: seq<char>, dst: nat, left: int)
  {
    && dst == TokenBytes(tokens) <= |buffer|
    && buffer[..dst] == Layout(tokens)
    && want == tokens + Fit(Tokens(line, src, left), |buffer| - dst)
  }

  /** One round of tokenize_line's outer loop, with its bookkeeping. */
  method TokenizeStep(line: string, ghost want: seq<string>, ghost tokens: seq<string>, src: nat,
                      tokenized: array<char>, dst: nat, left: int) returns (found: bool, t: string, e: nat)
    requires At(line, src) != NUL && At(line, src) != '\n' && 0 < left
    requires Tokenized(line, want, tokens, src, tokenized[..], dst, left)
    modifies tokenized
    ensures !found ==> want == tokens && Tokenized(line, want, tokens, src, tokenized[..], dst, left)
    ensures found ==> src < e && Tokenized(line, want, tokens + [t], e, tokenized[..], dst + |t| + 1, left - 1)
  {
    ghost var rest := Fit(Tokens(line, src, left), tokenized.Length - dst);
    found, t, e := NextToken(line, src, tokenized, dst, left);
    if found {
      TokenizeRound(want, tokens, t, rest, Fit(Tokens(line, e, left - 1), tokenized.Length - (dst + |t| + 1)));
      assert tokenized[..dst + |t| + 1][..dst + |t| + 1] == tokenized[..dst + |t| + 1];
    }
  }

  /**
   * tokenize_line, with its buffer bound honoured: the tokens from `start`, each
   * copied into `tokenized` behind the previous one and terminated by NUL; a token
   * that would not fit ends the scan. The tokens are those of `Tokens` as far as
   * they fit.
   */
  method TokenizeLine(line: string, start: nat, tokenized: array<char>, maxArgs: int) returns (tokens: seq<string>)
    modifies tokenized
    ensures tokens == Fit(Tokens(line, start, maxArgs), tokenized.Length)
    ensures TokenBytes(tokens) <= tokenized.Length
    ensures tokenized[..TokenBytes(tokens)] == Layout(tokens)
  {
    var src := start;
    var dst: nat := 0;
    var left := maxArgs;
    tokens := [];
    ghost var want := Fit(Tokens(line, start, maxArgs), tokenized.Length);
    while At(line, src) != NUL && At(line, src) != '\n' && 0 < left
      invariant Tokenized(line, want, tokens, src, tokenized[..], dst, left)
      decreases |line| - src
    {
      var found, t, e := TokenizeStep(line, want, tokens, src, tokenized, dst, left);
      if !found {
        return;
      }
      tokens := tokens + [t];
      dst := dst + |t| + 1;
      left := left - 1;
      src := e;
    }
  }

  // ---------------------------------------------------------------------------
  // Symbols and numbers
  // ---------------------------------------------------------------------------

  /** The spelling of each symbol in a scene file (the fixed grid sampler's included). */
  function SymbolName(y: Symbol): string
  {
    match y
    case OrderSRT => "ORDER_SRT"
    case OrderSTR => "ORDER_STR"
    case OrderRST => "ORDER_RST"
    case OrderRTS => "ORDER_RTS"
    case OrderTRS => "ORDER_TRS"
    case OrderTSR => "ORDER_TSR"
    case OrderXYZ => "ORDER_XYZ"
    case OrderXZY => "ORDER_XZY"
    case OrderYXZ => "ORDER_YXZ"
    case OrderYZX => "ORDER_YZX"
    case OrderZXY => "ORDER_ZXY"
    case OrderZYX => "ORDER_ZYX"
    case FixedGridSampler => "FIXED_GRID_SAMPER"
    case AdaptiveGridSampler => "ADAPTIVE_GRID_SAMPLER"
  }

  /** symbol_to_number: the symbol a string spells, tried in the source's order. */
  function SymbolToNumber(s: string): (r: Option<Symbol>)
    ensures r.Some? ==> SymbolName(r.value) == s
  {
    if s == "ORDER_SRT" then Some(OrderSRT)
    else if s == "ORDER_STR" then Some(OrderSTR)
    else if s == "ORDER_RST" then Some(OrderRST)
    else if s == "ORDER_RTS" then Some(OrderRTS)
    else if s == "ORDER_TRS" then Some(OrderTRS)
    else if s == "ORDER_TSR" then Some(OrderTSR)
    else if s == "ORDER_XYZ" then Some(OrderXYZ)
    else if s == "ORDER_XZY" then Some(OrderXZY)
    else if s == "ORDER_YXZ" then Some(OrderYXZ)
    else if s == "ORDER_YZX" then Some(OrderYZX)
    else if s == "ORDER_ZXY" then Some(OrderZXY)
    else if s == "ORDER_ZYX" then Some(OrderZYX)
    else if s == "FIXED_GRID_SAMPER" then Some(FixedGridSampler)
    else if s == "ADAPTIVE_GRID_SAMPLER" then Some(AdaptiveGridSampler)
    else None
  }

  /** Every symbol is recognised by its own spelling. */
  lemma SymbolNameRecognised(y: Symbol)
    ensures SymbolToNumber(SymbolName(y)) == Some(y)
  {
    match y
    case OrderSRT =>
    case OrderSTR =>
    case OrderRST =>
    case OrderRTS =>
    case OrderTRS =>
    case OrderTSR =>
    case OrderXYZ =>
    case OrderXZY =>
    case OrderYXZ =>
    case OrderYZX =>
    case OrderZXY =>
    case OrderZYX =>
    case FixedGridSampler =>
    case AdaptiveGridSampler =>
  }

  /** A string is a symbol exactly when it is some symbol's spelling. */
  lemma SymbolsAreSpellings(s: string)
    ensures SymbolToNumber(s).Some? <==> exists y: Symbol :: SymbolName(y) == s
  {
    if SymbolToNumber(s).Some? {
      assert SymbolName(SymbolToNumber(s).value) == s;
    } else if exists y: Symbol :: SymbolName(y) == s {
      var y: Symbol :| SymbolName(y) == s;
      SymbolNameRecognised(y);
    }
  }

  /** The number parse: a symbol, else strtod's value when it consumes the whole string. */
  function ScanNumber(s: string, strtod: string -> Strtod): (r: Option<Num>)
    ensures r.Some? <==> SymbolToNumber(s).Some? || strtod(s).end >= |s|
    ensures SymbolToNumber(s).Some? ==> r == Some(SymbolNum(SymbolToNumber(s).value))
  {
    match SymbolToNumber(s)
    case Some(y) => Some(SymbolNum(y))
    case None =>
      var d := strtod(s);
      if d.end < |s| then None else Some(Scalar(d.value))
  }

  function LightTypeName(l: LightType): string
  {
    match l
    case PointLight => "PointLight"
    case GridLight => "GridLight"
    case SphereLight => "SphereLight"
    case DomeLight => "DomeLight"
  }

  /** The light type a string names, as build_arguments matches it. */
  function LightTypeOf(s: string): (r: Option<LightType>)
    ensures r.Some? ==> LightTypeName(r.value) == s
  {
    if s == "PointLight" then Some(PointLight)
    else if s == "GridLight" then Some(GridLight)
    else if s == "SphereLight" then Some(SphereLight)
    else if s == "DomeLight" then Some(DomeLight)
    else None
  }

  /** Every light type is recognised by its own name. */
  lemma LightTypeRoundTrip(l: LightType)
    ensures LightTypeOf(LightTypeName(l)) == Some(l)
  {
  }

  // ---------------------------------------------------------------------------
  // The error table
  // ---------------------------------------------------------------------------

  datatype ErrorEntry = ErrorEntry(number: int, message: string)

  /** The parser's messages, by offset from PSR_ERR_NONE. */
  function PsrMessage(i: int): string
  {
    if i == 0 then ""
    else if i == 1 then "unknown command"
    else if i == 2 then "too many arguments"
    else if i == 3 then "too few arguments"
    else if i == 4 then "bad number arguments"
    else if i == 5 then "bad enum arguments"
    else if i == 6 then "entry name already exists"
    else "entry name not found"
  }

  /** The scene interface's messages, by offset from SI_ERR_PLUGIN_NOT_FOUND. */
  function SiMessage(i: int): string
  {
    if i == 0 then "plugin not found"
    else if i == 1 then "initialize plugin function not exit"
    else if i == 2 then "initialize plugin function failed"
    else if i == 3 then "invalid plugin info in the plugin"
    else if i == 4 then "close plugin function failed"
    else if i == 5 then "invalid entry type"
    else if i == 6 then "load file failed"
    else if i == 7 then "new entry failed"
    else "no memory"
  }

  /** parse_error's table: the parser's 8 entries, the scene interface's 9, and the SI_ERR_NONE terminator. */
  const ERRORS: seq<ErrorEntry> := [
    Psr(0), Psr(1), Psr(2), Psr(3), Psr(4), Psr(5), Psr(6), Psr(7),
    Si(0), Si(1), Si(2), Si(3), Si(4), Si(5), Si(6), Si(7), Si(8),
    ErrorEntry(SI_ERR_NONE, "")]

  function Psr(i: int): ErrorEntry { ErrorEntry(PSR_ERR_NONE + i, PsrMessage(i)) }

  function Si(i: int): ErrorEntry { ErrorEntry(SI_ERR_PLUGIN_NOT_FOUND + i, SiMessage(i)) }

  /** The message of the first entry of `table` from k on that carries n, before the terminator. */
  function MessageFrom(table: seq<ErrorEntry>, n: int, k: nat): Option<string>
    decreases |table| - k
  {
    if k >= |table| || table[k].number == SI_ERR_NONE then None
    else if table[k].number == n then Some(table[k].message)
    else MessageFrom(table, n, k + 1)
  }

  /** The message parse_error records for n, if the table has one. */
  function MessageFor(n: int): Option<string>
  {
    MessageFrom(ERRORS, n, 0)
  }

  /** A table whose only SI_ERR_NONE entry is its last one. */
  predicate Terminated(table: seq<ErrorEntry>)
  {
    && |table| > 0 && table[|table| - 1].number == SI_ERR_NONE
    && forall j :: 0 <= j < |table| - 1 ==> table[j].number != SI_ERR_NONE
  }

  /** j is the first index from k on, before the terminator, whose entry carries n. */
  predicate FirstWith(table: seq<ErrorEntry>, n: int, k: nat, j: int)
  {
    && k <= j < |table| - 1 && table[j].number == n
    && forall i :: k <= i < j ==> table[i].number != n
  }

  /** In a terminated table the search finds n exactly when an entry before the terminator carries it, and then the first such entry. */
  lemma {:induction false} MessageFromIndex(table: seq<ErrorEntry>, n: int, k: nat)
    requires Terminated(table) && k <= |table| - 1
    ensures MessageFrom(table, n, k).Some? <==> exists j :: k <= j < |table| - 1 && table[j].number == n
    ensures forall j :: FirstWith(table, n, k, j) ==> MessageFrom(table, n, k) == Some(table[j].message)
    decreases |table| - k
  {
    if k < |table| - 1 {
      MessageFromIndex(table, n, k + 1);
    }
  }

  lemma ErrorsLayout()
    ensures |ERRORS| == 18
    ensures forall j :: 0 <= j < 8 ==> ERRORS[j] == ErrorEntry(PSR_ERR_NONE + j, PsrMessage(j))
    ensures forall j :: 8 <= j < 17 ==> ERRORS[j] == ErrorEntry(SI_ERR_PLUGIN_NOT_FOUND + j - 8, SiMessage(j - 8))
    ensures Terminated(ERRORS)
  {
  }

  /**
   * The table knows exactly the parser's numbers 1024..1031 and the scene
   * interface's non-zero numbers; SI_ERR_NONE, the terminator, has no message.
   */
  lemma ErrorTable(n: int)
    ensures MessageFor(n).Some? <==> PSR_ERR_NONE <= n <= PSR_ERR_NAME_NOT_FOUND || SI_ERR_PLUGIN_NOT_FOUND <= n <= SI_ERR_NO_MEMORY
    ensures PSR_ERR_NONE <= n <= PSR_ERR_NAME_NOT_FOUND ==> MessageFor(n) == Some(PsrMessage(n - PSR_ERR_NONE))
    ensures SI_ERR_PLUGIN_NOT_FOUND <= n <= SI_ERR_NO_MEMORY ==> MessageFor(n) == Some(SiMessage(n - SI_ERR_PLUGIN_NOT_FOUND))
  {
    ErrorsLayout();
    TableLookup(ERRORS, n);
  }

  /** The search over a table laid out as ERRORS is: parser entries, scene entries, terminator. */
  lemma TableLookup(table: seq<ErrorEntry>, n: int)
    requires |table| == 18
    requires forall j :: 0 <= j < 8 ==> table[j] == ErrorEntry(PSR_ERR_NONE + j, PsrMessage(j))
    requires forall j :: 8 <= j < 17 ==> table[j] == ErrorEntry(SI_ERR_PLUGIN_NOT_FOUND + j - 8, SiMessage(j - 8))
    requires Terminated(table)
    ensures MessageFrom(table, n, 0).Some? <==> PSR_ERR_NONE <= n <= PSR_ERR_NAME_NOT_FOUND || SI_ERR_PLUGIN_NOT_FOUND <= n <= SI_ERR_NO_MEMORY
    ensures PSR_ERR_NONE <= n <= PSR_ERR_NAME_NOT_FOUND ==> MessageFrom(table, n, 0) == Some(PsrMessage(n - PSR_ERR_NONE))
    ensures SI_ERR_PLUGIN_NOT_FOUND <= n <= SI_ERR_NO_MEMORY ==> MessageFrom(table, n, 0) == Some(SiMessage(n - SI_ERR_PLUGIN_NOT_FOUND))
  {
    MessageFromIndex(table, n, 0);
    if PSR_ERR_NONE <= n <= PSR_ERR_NAME_NOT_FOUND {
      var j := n - PSR_ERR_NONE;
      assert FirstWith(table, n, 0, j);
    } else if SI_ERR_PLUGIN_NOT_FOUND <= n <= SI_ERR_NO_MEMORY {
      var j := n - SI_ERR_PLUGIN_NOT_FOUND + 8;
      assert FirstWith(table, n, 0, j);
    } else {
      forall j | 0 <= j < 17
        ensures table[j].number != n
      {
        if j < 8 {
          assert table[j].number == PSR_ERR_NONE + j;
        } else {
          assert table[j].number == SI_ERR_PLUGIN_NOT_FOUND + j - 8;
        }
      }
    }
  }

  /** The message after parse_error(n): the table's message for n, else the previous one. */
  function MessageAfter(n: int, previous: string): string
  {
    match MessageFor(n)
    case Some(m) => m
    case None => previous
  }

  // ---------------------------------------------------------------------------
  // The parser
  // ---------------------------------------------------------------------------

  /** LookupName over the parser's name map: the registered ID, else SI_BADID. */
  function LookupName(names: map<string, EntryId>, name: string): (id: EntryId)
    ensures name !in names ==> id == BadId
    ensures name in names ==> id == names[name]
  {
    if name in names then names[name] else BadId
  }

  /** The name map after RegisterName(name, id): only an absent name is added. */
  function Register(names: map<string, EntryId>, name: string, id: EntryId): (m: map<string, EntryId>)
    ensures name in m && m.Keys == names.Keys + {name}
    ensures forall k :: k in names ==> m[k] == names[k]
  {
    if name in names then names else names[name := id]
  }

  /** Registering a name makes it found with its ID if it was absent; every other name reads as before. */
  lemma RegisterThenLookup(names: map<string, EntryId>, name: string, id: EntryId, other: string)
    ensures LookupName(Register(names, name, id), other)
         == if other == name && name !in names then id else LookupName(names, other)
  {
  }

  class Parser {
    var lineNo: int
    var errorNo: int
    var errorMessage: string
    var nameMap: map<string, EntryId>

    /** A new parser: line 0, no names, and the error state of parse_error(PSR_ERR_NONE). */
    constructor ()
      ensures lineNo == 0 && nameMap == map[]
      ensures errorNo == PSR_ERR_NONE && errorMessage == ""
    {
      lineNo := 0;
      nameMap := map[];
      new;
      ParseError(this, PSR_ERR_NONE);
    }

    /** RegisterName: true and the name added when it was absent; false and no change otherwise. */
    method RegisterName(name: string, id: EntryId) returns (added: bool)
      modifies this
      ensures added <==> name !in old(nameMap)
      ensures nameMap == Register(old(nameMap), name, id)
      ensures lineNo == old(lineNo) && errorNo == old(errorNo) && errorMessage == old(errorMessage)
    {
      if name !in nameMap {
        nameMap := nameMap[name := id];
        return true;
      } else {
        return false;
      }
    }
  }

  /** parse_error: records the number always, and the table's message when it has one. */
  method ParseError(parser: Parser, n: int)
    modifies parser
    ensures parser.errorNo == n
    ensures parser.errorMessage == MessageAfter(n, old(parser.errorMessage))
    ensures parser.lineNo == old(parser.lineNo) && parser.nameMap == old(parser.nameMap)
  {
    parser.errorNo := n;
    var k := 0;
    while ERRORS[k].number != SI_ERR_NONE
      invariant 0 <= k < |ERRORS|
      invariant MessageFrom(ERRORS, n, k) == MessageFor(n)
      invariant parser.errorMessage == old(parser.errorMessage)
      invariant parser.errorNo == n
      decreases |ERRORS| - k
    {
      if parser.errorNo == ERRORS[k].number {
        parser.errorMessage := ERRORS[k].message;
        return;
      }
      k := k + 1;
    }
  }

  /** An argument's check and conversion, or the error it is rejected with. */
  datatype Converted = Converted(arg: Argument) | Rejected(errorNo: int)

  /** build_arguments' treatment of one argument of the given type. */
  function ConvertArg(names: map<string, EntryId>, t: ArgType, a: Argument, strtod: string -> Strtod): Converted
  {
    match t
    case NewEntryIdArg =>
      if LookupName(names, a.str) != BadId then Rejected(PSR_ERR_NAME_EXISTS) else Converted(a)
    case EntryIdArg =>
      var id := LookupName(names, a.str);
      if id == BadId then Rejected(PSR_ERR_NAME_NOT_FOUND) else Converted(a.(id := id))
    case NumberArg =>
      (match ScanNumber(a.str, strtod)
       case None => Rejected(PSR_ERR_BAD_NUMBER)
       case Some(v) => Converted(a.(num := v)))
    case LightTypeArg =>
      (match LightTypeOf(a.str)
       case None => Rejected(PSR_ERR_BAD_ENUM)
       case Some(l) => Converted(a.(num := LightNum(l))))
    case GroupNameArg =>
      if a.str == "DEFAULT_SHADING_GROUP" then Converted(a.(str := "")) else Converted(a)
    case PropertyNameArg => Converted(a)
    case FilePathArg => Converted(a)
    case StringArg => Converted(a)
    case CommandNameArg => Converted(a)
  }

  /** build_arguments from argument i on: the converted arguments, or the first rejection. */
  function BuildFrom(names: map<string, EntryId>, types: seq<ArgType>, args: seq<Argument>, i: nat, strtod: string -> Strtod): (r: Converted2)
    requires i <= |types| <= |args|
    ensures r.Built? ==> |r.args| == |args|
    decreases |types| - i
  {
    if i == |types| then Built(args)
    else
      match ConvertArg(names, types[i], args[i], strtod)
      case Rejected(e) => Failed(e)
      case Converted(a) => BuildFrom(names, types, args[i := a], i + 1, strtod)
  }

  datatype Converted2 = Built(args: seq<Argument>) | Failed(errorNo: int)

  /**
   * Building succeeds exactly when every argument converts on its own; it then
   * replaces each checked argument by its conversion and leaves the rest, and it
   * otherwise fails with the error of the first argument that does not convert.
   */
  lemma {:induction false} BuildArgumentsMeaning(names: map<string, EntryId>, types: seq<ArgType>, args: seq<Argument>, i: nat, strtod: string -> Strtod)
    requires i <= |types| <= |args|
    ensures BuildFrom(names, types, args, i, strtod).Built?
        <==> forall j :: i <= j < |types| ==> ConvertArg(names, types[j], args[j], strtod).Converted?
    ensures BuildFrom(names, types, args, i, strtod).Built? ==>
      var r := BuildFrom(names, types, args, i, strtod).args;
      && |r| == |args|
      && (forall j :: i <= j < |types| ==> r[j] == ConvertArg(names, types[j], args[j], strtod).arg)
      && (forall j :: 0 <= j < i || |types| <= j < |args| ==> r[j] == args[j])
    ensures BuildFrom(names, types, args, i, strtod).Failed? ==>
      exists j :: i <= j < |types|
        && ConvertArg(names, types[j], args[j], strtod) == Rejected(BuildFrom(names, types, args, i, strtod).errorNo)
        && forall k :: i <= k < j ==> ConvertArg(names, types[k], args[k], strtod).Converted?
    decreases |types| - i
  {
    if i < |types| {
      match ConvertArg(names, types[i], args[i], strtod)
      case Rejected(e) =>
      case Converted(a) =>
        var next := args[i := a];
        BuildArgumentsMeaning(names, types, next, i + 1, strtod);
        assert forall j :: i + 1 <= j < |types| ==> next[j] == args[j];
    }
  }

  /**
   * After a successful build every entry-ID argument carries the ID its name is
   * registered under, and every new-entry argument's name looks up as SI_BADID.
   */
  lemma BuiltArgumentsResolved(names: map<string, EntryId>, types: seq<ArgType>, args: seq<Argument>, strtod: string -> Strtod)
    requires |types| <= |args|
    requires BuildFrom(names, types, args, 0, strtod).Built?
    ensures forall j :: 0 <= j < |types| && types[j] == EntryIdArg ==>
      var id := BuildFrom(names, types, args, 0, strtod).args[j].id;
      id != BadId && args[j].str in names && id == names[args[j].str]
    ensures forall j :: 0 <= j < |types| && types[j] == NewEntryIdArg ==> LookupName(names, args[j].str) == BadId
  {
    BuildArgumentsMeaning(names, types, args, 0, strtod);
    forall j | 0 <= j < |types| && types[j] == NewEntryIdArg
      ensures LookupName(names, args[j].str) == BadId
    {
      assert ConvertArg(names, types[j], args[j], strtod).Converted?;
    }
    forall j | 0 <= j < |types| && types[j] == EntryIdArg
      ensures LookupName(names, args[j].str) != BadId
    {
      assert ConvertArg(names, types[j], args[j], strtod).Converted?;
    }
  }

  /** build_arguments: converts the command's arguments in place, or records the first error and returns -1. */
  method BuildArguments(parser: Parser, command: Command, arguments: array<Argument>, strtod: string -> Strtod) returns (err: int)
    requires |command.argTypes| <= arguments.Length
    modifies parser, arguments
    ensures var b := BuildFrom(old(parser.nameMap), command.argTypes, old(arguments[..]), 0, strtod);
      && (err == if b.Built? then 0 else -1)
      && (b.Built? ==> arguments[..] == b.args && parser.errorNo == old(parser.errorNo)
                       && parser.errorMessage == old(parser.errorMessage))
      && (b.Failed? ==> parser.errorNo == b.errorNo
                        && parser.errorMessage == MessageAfter(b.errorNo, old(parser.errorMessage)))
    ensures parser.lineNo == old(parser.lineNo) && parser.nameMap == old(parser.nameMap)
  {
    var i := 0;
    while i < |command.argTypes|
      invariant 0 <= i <= |command.argTypes|
      invariant BuildFrom(parser.nameMap, command.argTypes, old(arguments[..]), 0, strtod)
             == BuildFrom(parser.nameMap, command.argTypes, arguments[..], i, strtod)
      invariant parser.lineNo == old(parser.lineNo) && parser.nameMap == old(parser.nameMap)
      invariant parser.errorNo == old(parser.errorNo) && parser.errorMessage == old(parser.errorMessage)
    {
      var arg := arguments[i];
      ghost var before := arguments[..];
      match command.argTypes[i] {
        case NewEntryIdArg =>
          if LookupName(parser.nameMap, arg.str) != BadId {
            ParseError(parser, PSR_ERR_NAME_EXISTS);
            return -1;
          }
        case EntryIdArg =>
          var id := LookupName(parser.nameMap, arg.str);
          if id == BadId {
            ParseError(parser, PSR_ERR_NAME_NOT_FOUND);
            return -1;
          }
          arguments[i] := arg.(id := id);
        case NumberArg =>
          var v := ScanNumber(arg.str, strtod);
          if v.None? {
            ParseError(parser, PSR_ERR_BAD_NUMBER);
            return -1;
          }
          arguments[i] := arg.(num := v.value);
        case LightTypeArg =>
          var l := LightTypeOf(arg.str);
          if l.None? {
            ParseError(parser, PSR_ERR_BAD_ENUM);
            return -1;
          }
          arguments[i] := arg.(num := LightNum(l.value));
        case GroupNameArg =>
          if arg.str == "DEFAULT_SHADING_GROUP" {
            arguments[i] := arg.(str := "");
          }
        case PropertyNameArg =>
        case FilePathArg =>
        case StringArg =>
        case CommandNameArg =>
      }
      assert arguments[..] == before[i := ConvertArg(parser.nameMap, command.argTypes[i], arg, strtod).arg];
      i := i + 1;
    }
    return 0;
  }

  // ---------------------------------------------------------------------------
  // Parsing a line
  // ---------------------------------------------------------------------------

  /** What parsing one line comes to: the return value, the error recorded if any, and the name map after. */
  datatype Outcome = Outcome(ret: int, error: Option<int>, names: map<string, EntryId>)

  /** The tokens parse_line works on: those from `head` that fit the 1024-byte token list, at most 16 of them. */
  function LineTokens(line: string, head: nat): (ts: seq<string>)
    ensures |ts| <= MAX_ARGS && TokenBytes(ts) <= TOKEN_BUFFER_SIZE
    ensures |ts| <= |Tokens(line, head, MAX_ARGS)| && ts == Tokens(line, head, MAX_ARGS)[..|ts|]
  {
    TokensShape(line, head, MAX_ARGS);
    FitWithin(Tokens(line, head, MAX_ARGS), TOKEN_BUFFER_SIZE);
    Fit(Tokens(line, head, MAX_ARGS), TOKEN_BUFFER_SIZE)
  }

  /** The 16 arguments after tokenizing: token i as the string of argument i, the others empty. */
  function Initial(tokens: seq<string>): (args: seq<Argument>)
    ensures |args| == MAX_ARGS
  {
    seq(MAX_ARGS, i => Argument(if 0 <= i < |tokens| then tokens[i] else "", NoNum, BadId))
  }

  /** The command name: the first token, or the empty string when no token fit. */
  function CommandName(tokens: seq<string>): string
  {
    if |tokens| > 0 then tokens[0] else ""
  }

  /** A line parse_line ignores: nothing but whitespace, or whitespace then a comment. */
  predicate Ignored(line: string)
  {
    At(line, SkipSpace(line, 0)) == NUL || At(line, SkipSpace(line, 0)) == '#'
  }

  /** The name map grew by at most one name, and every name registered before keeps its ID. */
  predicate NamesGrow(names: map<string, EntryId>, m: map<string, EntryId>)
  {
    && (forall k :: k in names ==> k in m && m[k] == names[k])
    && (forall a, b :: a in m && a !in names && b in m && b !in names ==> a == b)
  }

  /**
   * parse_line, as a function of the name map, the line and the command table.
   * Every line either succeeds with 0 and records no error, or fails with -1,
   * records one and leaves the names alone; a success adds at most one name.
   */
  function ParseSpec(names: map<string, EntryId>, line: string, env: Env): (o: Outcome)
    ensures o.ret == 0 || o.ret == -1
    ensures o.ret == 0 <==> o.error.None?
    ensures o.ret == -1 ==> o.names == names
    ensures NamesGrow(names, o.names)
  {
    var head := SkipSpace(line, 0);
    if Ignored(line) then Outcome(0, None, names)
    else
      var tokens := LineTokens(line, head);
      match env.search(CommandName(tokens))
      case None => Outcome(-1, Some(PSR_ERR_UNKNOWN_COMMAND), names)
      case Some(cmd) =>
        if |tokens| < |cmd.argTypes| then Outcome(-1, Some(PSR_ERR_FEW_ARGS), names)
        else if |tokens| > |cmd.argTypes| then Outcome(-1, Some(PSR_ERR_MANY_ARGS), names)
        else
          match BuildFrom(names, cmd.argTypes, Initial(tokens), 0, env.strtod)
          case Failed(e) => Outcome(-1, Some(e), names)
          case Built(args) =>
            var res := cmd.run(args[..|cmd.argTypes|]);
            if !res.success then Outcome(-1, Some(res.errorNo), names)
            else if res.newEntryName.Some? then Outcome(0, None, Register(names, res.newEntryName.value, res.newEntryId))
            else Outcome(0, None, names)
  }

  /** The error number after an outcome: the one it recorded, else the previous one. */
  function ErrorNoAfter(o: Outcome, previous: int): int
  {
    if o.error.Some? then o.error.value else previous
  }

  /** The error message after an outcome: parse_error's message for its error, else the previous one. */
  function MessageAfterOutcome(o: Outcome, previous: string): string
  {
    if o.error.Some? then MessageAfter(o.error.value, previous) else previous
  }

  /**
   * A line that is not ignored succeeds exactly when its first token names a
   * command, the token count equals the command's argument count, every argument
   * converts, and the command runs successfully.
   */
  lemma ParseSuccess(names: map<string, EntryId>, line: string, env: Env)
    requires !Ignored(line)
    ensures var tokens := LineTokens(line, SkipSpace(line, 0));
      ParseSpec(names, line, env).ret == 0 <==>
        && env.search(CommandName(tokens)).Some?
        && var cmd := env.search(CommandName(tokens)).value;
        && |tokens| == |cmd.argTypes|
        && (forall j :: 0 <= j < |cmd.argTypes| ==> ConvertArg(names, cmd.argTypes[j], Initial(tokens)[j], env.strtod).Converted?)
        && var b := BuildFrom(names, cmd.argTypes, Initial(tokens), 0, env.strtod);
        && b.Built?
        && cmd.run(b.args[..|cmd.argTypes|]).success
  {
    var tokens := LineTokens(line, SkipSpace(line, 0));
    if env.search(CommandName(tokens)).Some? {
      var cmd := env.search(CommandName(tokens)).value;
      if |tokens| == |cmd.argTypes| {
        BuildArgumentsMeaning(names, cmd.argTypes, Initial(tokens), 0, env.strtod);
      }
    }
  }

  /** A line that fails records the error parse_line reports for the first check it fails, in order. */
  lemma ParseFailure(names: map<string, EntryId>, line: string, env: Env)
    requires !Ignored(line)
    ensures var tokens := LineTokens(line, SkipSpace(line, 0));
      var found := env.search(CommandName(tokens));
      var o := ParseSpec(names, line, env);
      && (found.None? ==> o.error == Some(PSR_ERR_UNKNOWN_COMMAND))
      && (found.Some? && |tokens| < |found.value.argTypes| ==> o.error == Some(PSR_ERR_FEW_ARGS))
      && (found.Some? && |tokens| > |found.value.argTypes| ==> o.error == Some(PSR_ERR_MANY_ARGS))
  {
  }

  /** parse_line's leading skip then tokenizing finds the same tokens in l + t as in l. */
  lemma HeadExtend(l: string, t: string, m: int)
    requires SingleLine(l) && StopsTokens(l, t)
    ensures Tokens(l + t, SkipSpace(l + t, 0), m) == Tokens(l, SkipSpace(l, 0), m)
  {
    var L := l + t;
    SkipSpaceExtend(l, t, 0);
    var h := SkipSpace(l, 0);
    if h < |l| {
      TokensExtend(l, t, h, m);
    } else {
      SkipSpaceSpan(l, 0);
      if |l| > 0 {
        assert At(l, |l| - 1) == l[|l| - 1];
      }
      assert At(L, |l|) == (if t == [] then NUL else t[0]);
      if t == ['\n'] {
        assert At(L, |l| + 1) == NUL;
        assert SkipSpace(L, |l| + 1) == |L|;
      }
    }
  }

  /**
   * The tokens of a line are its words in order: the first 16 words, cut back to
   * those whose layout fits the 1024-byte token list, and all of the first 16 when
   * they fit. The line may end in its '\n', or in a NUL or a '\n' directly after a
   * token with more after it, which is never read.
   */
  lemma LineTokensAreWords(line: string, t: string)
    requires SingleLine(line) && StopsTokens(line, t)
    ensures LineTokens(line + t, SkipSpace(line + t, 0)) == Fit(Take(Words(line), MAX_ARGS), TOKEN_BUFFER_SIZE)
    ensures TokenBytes(Take(Words(line), MAX_ARGS)) <= TOKEN_BUFFER_SIZE ==>
      LineTokens(line + t, SkipSpace(line + t, 0)) == Take(Words(line), MAX_ARGS)
  {
    var head := SkipSpace(line, 0);
    HeadExtend(line, t, MAX_ARGS);
    WordsSkip(line, 0);
    assert line[0..] == line;
    TokensAreWords(line, head, MAX_ARGS);
    FitWithin(Tokens(line, head, MAX_ARGS), TOKEN_BUFFER_SIZE);
  }

  /**
   * parse_line: skips leading whitespace, ignores a blank or comment line,
   * tokenizes the rest into a 1024-byte token list and 16 arguments, looks the
   * command up, checks the argument count, builds the arguments and runs the
   * command, registering the name of any entry it creates. The result, the error
   * state and the name map are those ParseSpec describes.
   */
  method ParseLine(parser: Parser, line: string, env: Env) returns (r: int)
    modifies parser
    ensures var o := ParseSpec(old(parser.nameMap), line, env);
      && r == o.ret
      && parser.nameMap == o.names
      && parser.errorNo == ErrorNoAfter(o, old(parser.errorNo))
      && parser.errorMessage == MessageAfterOutcome(o, old(parser.errorMessage))
    ensures parser.lineNo == old(parser.lineNo)
  {
    var head := SkipSpaces(line, 0);
    if At(line, head) == NUL || At(line, head) == '#' {
      return 0;
    }
    var tokenList := new char[TOKEN_BUFFER_SIZE](_ => NUL);
    var tokens := TokenizeLine(line, head, tokenList, MAX_ARGS);
    assert tokens == LineTokens(line, head);
    var arguments := new Argument[MAX_ARGS](i => Argument(if 0 <= i < |tokens| then tokens[i] else "", NoNum, BadId));
    assert arguments[..] == Initial(tokens);
    var found := env.search(arguments[0].str);
    assert arguments[0].str == CommandName(tokens);
    if found.None? {
      ParseError(parser, PSR_ERR_UNKNOWN_COMMAND);
      return -1;
    }
    var command := found.value;
    if |tokens| < |command.argTypes| {
      ParseError(parser, PSR_ERR_FEW_ARGS);
      return -1;
    }
    if |tokens| > |command.argTypes| {
      ParseError(parser, PSR_ERR_MANY_ARGS);
      return -1;
    }
    var err := BuildArguments(parser, command, arguments, env.strtod);
    if err != 0 {
      return -1;
    }
    var result := command.run(arguments[..|command.argTypes|]);
    if !result.success {
      ParseError(parser, result.errorNo);
      return -1;
    }
    if result.newEntryName.Some? {
      var _ := parser.RegisterName(result.newEntryName.value, result.newEntryId);
    }
    return 0;
  }

  /** PsrParseLine: counts the line, then parses it. */
  method PsrParseLine(parser: Parser, line: string, env: Env) returns (r: int)
    modifies parser
    ensures parser.lineNo == old(parser.lineNo) + 1
    ensures var o := ParseSpec(old(parser.nameMap), line, env);
      && r == o.ret
      && parser.nameMap == o.names
      && parser.errorNo == ErrorNoAfter(o, old(parser.errorNo))
      && parser.errorMessage == MessageAfterOutcome(o, old(parser.errorMessage))
  {
    parser.lineNo := parser.lineNo + 1;
    r := ParseLine(parser, line, env);
  }
}
