/**
 * getopt as a resumable parser: one call, one option, with a cursor kept between calls.
 */
module Getopt {
  import opened Wrappers

  /** A character of a C string: a byte other than the terminator. */
  type Char = c: int | 0 < c < 256 witness 1
  type Str = seq<Char>
  type Argv = seq<Option<Str>>

  const DASH: Char := 45
  const COLON: Char := 58
  const QUESTION: Char := 63

  /** The value of a byte read through a plain char, which is signed. */
  function Plain(c: Char): int { if c < 128 then c else c - 256 }

  // ---------------------------------------------------------------- what the option string says

  predicate Legal(c: Char, opts: Str) { c != COLON && c in opts }

  /** The first mention of c is followed by a colon. */
  ghost predicate TakesArg(c: Char, opts: Str) {
    exists k :: 0 <= k < |opts| - 1 && opts[k] == c && c !in opts[..k] && opts[k + 1] == COLON
  }

  ghost predicate WantsArg(c: Char, opts: Str) { Legal(c, opts) && TakesArg(c, opts) }

  predicate Quiet(opts: Str) { |opts| > 0 && opts[0] == COLON }

  // ---------------------------------------------------------------- the command line read at once

  datatype Item = Flag(c: Char) | WithArg(c: Char, arg: Option<Str>) | Unknown(c: Char) | Missing(c: Char)

  ghost function Single(c: Char, opts: Str): Item {
    if Legal(c, opts) then Flag(c) else Unknown(c)
  }

  /** The leading characters that ask for no argument. */
  ghost function Leading(group: Str, opts: Str): (j: nat)
    ensures j <= |group| && (forall k :: 0 <= k < j ==> !WantsArg(group[k], opts))
    ensures j < |group| ==> WantsArg(group[j], opts)
  {
    if |group| == 0 || WantsArg(group[0], opts) then 0 else 1 + Leading(group[1..], opts)
  }

  ghost function Singles(s: Str, opts: Str): (r: seq<Item>)
    ensures |r| == |s|
  {
    seq(|s|, k requires 0 <= k < |s| => Single(s[k], opts))
  }

  ghost predicate IsOptionWord(argv: Argv, i: nat) {
    i < |argv| && argv[i].Some? && |argv[i].value| > 1 && argv[i].value[0] == DASH && argv[i].value != [DASH, DASH]
  }

  ghost predicate IsTerminator(argv: Argv, i: nat) {
    i < |argv| && argv[i] == Some([DASH, DASH])
  }

  /** The argument of c in word i: the rest of the word if any, else the next word. */
  ghost function ArgItem(argv: Argv, i: nat, c: Char, rest: Str): Item {
    if rest != [] then WithArg(c, Some(rest))
    else if i + 1 < |argv| then WithArg(c, argv[i + 1])
    else Missing(c)
  }

  /** The items of the rest `group` of word i, an argument in the next word included. */
  ghost function GroupItems(argv: Argv, i: nat, group: Str, opts: Str): seq<Item> {
    var j := Leading(group, opts);
    Singles(group[..j], opts) + if j < |group| then [ArgItem(argv, i, group[j], group[j + 1..])] else []
  }

  /** The word after word i and the argument it may take. */
  ghost function After(argv: Argv, i: nat, group: Str, opts: Str): (n: nat)
    ensures i < n
  {
    if Leading(group, opts) == |group| - 1 && i + 1 < |argv| then i + 2 else i + 1
  }

  /** All items from word i on. */
  ghost function Items(argv: Argv, i: nat, opts: Str): seq<Item>
    decreases |argv| - i
  {
    if !IsOptionWord(argv, i) then []
    else var g := argv[i].value[1..]; GroupItems(argv, i, g, opts) + Items(argv, After(argv, i, g, opts), opts)
  }

  /** The index of the first operand. */
  ghost function Operands(argv: Argv, i: nat, opts: Str): nat
    decreases |argv| - i
  {
    if IsOptionWord(argv, i) then Operands(argv, After(argv, i, argv[i].value[1..], opts), opts)
    else if IsTerminator(argv, i) then i + 1
    else i
  }

  // ---------------------------------------------------------------- what a call answers

  datatype Answer = Answer(retval: int, optarg: Option<Str>, optopt: int)

  const Done := Answer(-1, None, 0)

  function Reported(it: Item, opts: Str): Answer {
    match it
    case Flag(c) => Answer(c, None, 0)
    case WithArg(c, arg) => Answer(c, arg, 0)
    case Unknown(c) => Answer(QUESTION, None, Plain(c))
    case Missing(c) => Answer(if Quiet(opts) then COLON else QUESTION, None, Plain(c))
  }

  /** The complaint printed for an item, if any. */
  function Complaint(it: Item, opterr: bool, opts: Str): seq<Item> {
    if opterr && !Quiet(opts) && (it.Unknown? || it.Missing?) then [it] else []
  }

  function Complaints(its: seq<Item>, opterr: bool, opts: Str): seq<Item> {
    if its == [] then [] else Complaint(its[0], opterr, opts) + Complaints(its[1..], opterr, opts)
  }

  function Answers(its: seq<Item>, opts: Str): seq<Answer> {
    if its == [] then [Done] else [Reported(its[0], opts)] + Answers(its[1..], opts)
  }

  // ---------------------------------------------------------------- one step along a word

  lemma GroupStep(argv: Argv, i: nat, g: Str, opts: Str)
    requires g != [] && !WantsArg(g[0], opts)
    ensures GroupItems(argv, i, g, opts) == [Single(g[0], opts)] + GroupItems(argv, i, g[1..], opts)
    ensures |g| > 1 ==> After(argv, i, g, opts) == After(argv, i, g[1..], opts)
    ensures |g| == 1 ==> GroupItems(argv, i, g, opts) == [Single(g[0], opts)] && After(argv, i, g, opts) == i + 1
  {
    hide WantsArg;
    var j := Leading(g, opts);
    assert j == 1 + Leading(g[1..], opts);
    assert g[..j] == [g[0]] + g[1..][..j - 1];
    assert Singles(g[..j], opts) == [Single(g[0], opts)] + Singles(g[1..][..j - 1], opts);
    if j < |g| {
      assert g[j] == g[1..][j - 1] && g[j + 1..] == g[1..][j..];
    }
  }

  lemma GroupArg(argv: Argv, i: nat, g: Str, opts: Str)
    requires g != [] && WantsArg(g[0], opts)
    ensures GroupItems(argv, i, g, opts) == [ArgItem(argv, i, g[0], g[1..])]
    ensures After(argv, i, g, opts) == if |g| == 1 && i + 1 < |argv| then i + 2 else i + 1
  {}

  /** The items still to come with the cursor at o in word i. */
  ghost function AheadOf(o: Option<Str>, i: nat, argv: Argv, opts: Str): seq<Item> {
    if o.None? then Items(argv, i, opts)
    else GroupItems(argv, i, o.value, opts) + Items(argv, After(argv, i, o.value, opts), opts)
  }

  ghost function FinalOf(o: Option<Str>, i: nat, argv: Argv, opts: Str): nat {
    Operands(argv, if o.None? then i else After(argv, i, o.value, opts), opts)
  }

  lemma OpenWord(argv: Argv, i: nat, opts: Str)
    requires IsOptionWord(argv, i)
    ensures AheadOf(None, i, argv, opts) == AheadOf(Some(argv[i].value[1..]), i, argv, opts)
    ensures FinalOf(None, i, argv, opts) == FinalOf(Some(argv[i].value[1..]), i, argv, opts)
  {}

  lemma Closed(argv: Argv, i: nat, opts: Str)
    requires !IsOptionWord(argv, i)
    ensures AheadOf(None, i, argv, opts) == []
    ensures FinalOf(None, i, argv, opts) == if IsTerminator(argv, i) then i + 1 else i
  {}

  /** The cursor past a character without argument. */
  function Past(g: Str): Option<Str>
    requires g != []
  {
    if |g| == 1 then None else Some(g[1..])
  }

  lemma StepSingle(argv: Argv, i: nat, g: Str, opts: Str)
    requires g != [] && !WantsArg(g[0], opts)
    ensures var n := if |g| == 1 then i + 1 else i;
      && AheadOf(Some(g), i, argv, opts) == [Single(g[0], opts)] + AheadOf(Past(g), n, argv, opts)
      && FinalOf(Some(g), i, argv, opts) == FinalOf(Past(g), n, argv, opts)
  {
    hide WantsArg, Items, Operands, GroupItems, After;
    GroupStep(argv, i, g, opts);
  }

  lemma StepArg(argv: Argv, i: nat, g: Str, opts: Str)
    requires g != [] && WantsArg(g[0], opts)
    ensures var n := if |g| == 1 && i + 1 < |argv| then i + 2 else i + 1;
      && AheadOf(Some(g), i, argv, opts) == [ArgItem(argv, i, g[0], g[1..])] + AheadOf(None, n, argv, opts)
      && FinalOf(Some(g), i, argv, opts) == FinalOf(None, n, argv, opts)
  {
    hide WantsArg, Items, Operands, GroupItems, After;
    GroupArg(argv, i, g, opts);
  }

  /** Where strchr finds c. */
  method Strchr(s: Str, c: Char) returns (at: int)
    ensures at == -1 <==> c !in s
    ensures at != -1 ==> 0 <= at < |s| && s[at] == c && c !in s[..at]
  {
    at := 0;
    while at < |s| && s[at] != c
      invariant 0 <= at <= |s| && c !in s[..at]
    {
      at := at + 1;
    }
    if at == |s| { at := -1; }
  }

  lemma Mentioned(s: Str, k: int, n: int)
    requires 0 <= k < n <= |s|
    ensures s[k] in s[..n]
  {
    assert s[..n][k] == s[k];
  }

  lemma TakesArgAt(c: Char, opts: Str, at: int)
    requires 0 <= at < |opts| && opts[at] == c && c !in opts[..at]
    ensures TakesArg(c, opts) <==> at + 1 < |opts| && opts[at + 1] == COLON
  {
    if TakesArg(c, opts) {
      var k :| 0 <= k < |opts| - 1 && opts[k] == c && c !in opts[..k] && opts[k + 1] == COLON;
      if k < at { Mentioned(opts, k, at); }
      if at < k { Mentioned(opts, at, k); }
    }
  }

  lemma NotWanting(c: Char, opts: Str)
    requires !Legal(c, opts)
    ensures !WantsArg(c, opts)
  {}

  lemma NothingMore(opterr: bool, opts: Str)
    ensures Answers([], opts) == [Done] && Complaints([], opterr, opts) == []
  {}

  lemma AnswersStep(before: seq<Answer>, its: seq<Item>, opts: Str)
    requires its != []
    ensures before + Answers(its, opts) == (before + [Reported(its[0], opts)]) + Answers(its[1..], opts)
  {}

  lemma ComplaintsStep(before: seq<Item>, its: seq<Item>, opterr: bool, opts: Str)
    requires its != []
    ensures before + Complaints(its, opterr, opts) == (before + Complaint(its[0], opterr, opts)) + Complaints(its[1..], opterr, opts)
  {}

  lemma Wanting(c: Char, opts: Str, at: int)
    requires 0 <= at < |opts| && opts[at] == c && c !in opts[..at] && c != COLON
    ensures Legal(c, opts) && (WantsArg(c, opts) <==> at + 1 < |opts| && opts[at + 1] == COLON)
  {
    TakesArgAt(c, opts, at);
  }

  /** The cursor, if any, is a nonempty proper tail of word i. */
  ghost predicate Inside(o: Option<Str>, i: nat, argv: Argv) {
    o.Some? ==>
      && o.value != [] && i < |argv| && argv[i].Some?
      && |o.value| < |argv[i].value| && o.value == argv[i].value[|argv[i].value| - |o.value|..]
  }

  lemma InsideIs(g: Str, i: nat, argv: Argv)
    requires Inside(Some(g), i, argv)
    ensures g != [] && forall n :: Inside(None, n, argv)
  {}

  lemma StillInside(g: Str, i: nat, argv: Argv)
    requires g != [] && Inside(Some(g), i, argv)
    ensures |g| > 1 ==> Inside(Some(g[1..]), i, argv)
  {}

  /** A word that starts with a dash and has more. */
  predicate OptionStart(w: Str) { |w| > 1 && w[0] == DASH }

  /** The characters that the next call starts from: the rest of the current word, or the next option word behind its dash. */
  ghost function AtCursor(o: Option<Str>, i: nat, argv: Argv): Option<Str> {
    if o.Some? then o
    else if i < |argv| && argv[i].Some? && |argv[i].value| > 1 && argv[i].value[0] == DASH && argv[i].value != [DASH, DASH]
    then Some(argv[i].value[1..])
    else None
  }

  // ---------------------------------------------------------------- writing options down

  /**
   * Option words, grouped and with the argument attached or apart as in section 12.2 of
   * IEEE Std 1003.1-2017, and the faulty ones: a word may hold characters that are no options,
   * and the last word may lack the argument of its last option.
   */
  datatype Word =
    | Group(marks: seq<Item>)
    | Attached(marks: seq<Item>, c: Char, arg: Str)
    | Apart(marks: seq<Item>, c: Char, next: Option<Str>)
    | Lacking(marks: seq<Item>, c: Char)

  /** A character marked as an option without argument, or as no option of the program. */
  ghost predicate Marked(it: Item, opts: Str) {
    || (it.Flag? && it.c != COLON && it.c in opts && !TakesArg(it.c, opts))
    || (it.Unknown? && (it.c == COLON || it.c !in opts))
  }

  ghost predicate Proper(w: Word, opts: Str) {
    && (forall k {:trigger w.marks[k]} :: 0 <= k < |w.marks| ==> Marked(w.marks[k], opts))
    && (w.Group? ==> w.marks != [])
    && (!w.Group? ==> w.c != COLON && w.c in opts && TakesArg(w.c, opts))
    && (w.Attached? ==> w.arg != [])
    && Text(w) != [DASH, DASH]
  }

  function Chars(marks: seq<Item>): Str { seq(|marks|, k requires 0 <= k < |marks| => marks[k].c) }

  function Text(w: Word): Str {
    [DASH] + Chars(w.marks) +
    match w
    case Group(_) => []
    case Attached(_, c, arg) => [c] + arg
    case Apart(_, c, _) => [c]
    case Lacking(_, c) => [c]
  }

  function Spelled(w: Word): (r: Argv)
    ensures r != [] && r[0] == Some(Text(w))
  {
    if w.Apart? then [Some(Text(w)), w.next] else [Some(Text(w))]
  }

  function SpelledAll(ws: seq<Word>): (r: Argv)
    ensures ws != [] ==> r != []
  {
    if ws == [] then [] else Spelled(ws[0]) + SpelledAll(ws[1..])
  }

  function Meaning(w: Word): seq<Item> {
    w.marks +
    match w
    case Group(_) => []
    case Attached(_, c, arg) => [WithArg(c, Some(arg))]
    case Apart(_, c, next) => [WithArg(c, next)]
    case Lacking(_, c) => [Missing(c)]
  }

  function MeaningAll(ws: seq<Word>): seq<Item> {
    if ws == [] then [] else Meaning(ws[0]) + MeaningAll(ws[1..])
  }

  /** Only the last word of a command line can lack an argument. */
  ghost predicate Sentence(ws: seq<Word>, rest: Argv, opts: Str) {
    forall k {:trigger ws[k]} :: 0 <= k < |ws| ==> Proper(ws[k], opts) && (ws[k].Lacking? ==> k == |ws| - 1 && rest == [])
  }

  lemma {:induction false} LeadingIs(g: Str, opts: Str, j: nat)
    requires j <= |g| && (forall k :: 0 <= k < j ==> !WantsArg(g[k], opts)) && (j < |g| ==> WantsArg(g[j], opts))
    ensures Leading(g, opts) == j
  {
    hide WantsArg;
    if j > 0 {
      forall k | 0 <= k < j - 1 ensures !WantsArg(g[1..][k], opts) { assert g[1..][k] == g[k + 1]; }
      LeadingIs(g[1..], opts, j - 1);
    }
  }

  /** One word read back. */
  lemma WordRead(argv: Argv, i: nat, w: Word, opts: Str)
    requires Proper(w, opts) && i < |argv| && argv[i] == Some(Text(w))
    requires w.Apart? ==> i + 1 < |argv| && argv[i + 1] == w.next
    requires w.Lacking? ==> i + 1 == |argv|
    ensures IsOptionWord(argv, i)
    ensures GroupItems(argv, i, Text(w)[1..], opts) == Meaning(w)
    ensures After(argv, i, Text(w)[1..], opts) == i + |Spelled(w)|
  {
    hide WantsArg, TakesArg;
    var g, n := Text(w)[1..], |w.marks|;
    forall k | 0 <= k < n ensures g[k] == w.marks[k].c && !WantsArg(g[k], opts) && Single(g[k], opts) == w.marks[k] {
      MarkedIs(w.marks[k], opts);
    }
    if !w.Group? { WantingIs(w.c, opts); }
    LeadingIs(g, opts, n);
    assert Singles(g[..n], opts) == w.marks;
    if !w.Group? {
      assert g[n + 1..] == if w.Attached? then w.arg else [];
    }
  }

  lemma MarkedIs(it: Item, opts: Str)
    requires Marked(it, opts)
    ensures !WantsArg(it.c, opts) && Single(it.c, opts) == it
  {}

  lemma SingleMarked(c: Char, opts: Str)
    requires !WantsArg(c, opts)
    ensures Marked(Single(c, opts), opts) && Single(c, opts).c == c
  {}

  lemma WantingIs(c: Char, opts: Str)
    ensures WantsArg(c, opts) <==> c != COLON && c in opts && TakesArg(c, opts)
  {}

  /**
   * Options written down in any grouping, with arguments attached or apart, among characters that
   * are no options and up to a last one without its argument, are read back as written, and
   * reading goes on with the word behind them.
   */
  lemma {:induction false} ReadBack(ws: seq<Word>, before: Argv, rest: Argv, opts: Str)
    requires Sentence(ws, rest, opts)
    ensures var argv := before + SpelledAll(ws) + rest; var end := |before| + |SpelledAll(ws)|;
      && Items(argv, |before|, opts) == MeaningAll(ws) + Items(argv, end, opts)
      && Operands(argv, |before|, opts) == Operands(argv, end, opts)
    decreases |ws|
  {
    hide Proper, GroupItems, After, IsOptionWord, Meaning, Text, Items, Operands;
    if ws != [] {
      var w, b := ws[0], before + Spelled(ws[0]);
      var argv := before + SpelledAll(ws) + rest;
      assert argv == b + SpelledAll(ws[1..]) + rest;
      ReadBack(ws[1..], b, rest, opts);
      FirstWord(argv, |before|, w, opts);
      assert MeaningAll(ws) == Meaning(w) + MeaningAll(ws[1..]);
    } else {
      assert before + SpelledAll(ws) + rest == before + rest;
    }
  }

  lemma FirstWord(argv: Argv, i: nat, w: Word, opts: Str)
    requires Proper(w, opts) && i + |Spelled(w)| <= |argv| && argv[i..i + |Spelled(w)|] == Spelled(w)
    requires w.Lacking? ==> i + 1 == |argv|
    ensures Items(argv, i, opts) == Meaning(w) + Items(argv, i + |Spelled(w)|, opts)
    ensures Operands(argv, i, opts) == Operands(argv, i + |Spelled(w)|, opts)
  {
    hide Proper, GroupItems, After, IsOptionWord, Meaning, Text;
    assert argv[i] == Spelled(w)[0];
    if w.Apart? { assert argv[i + 1] == Spelled(w)[1]; }
    WordRead(argv, i, w, opts);
  }

  /** The word that stands at i, read as a word of the grammar. */
  ghost function WordAt(argv: Argv, i: nat, opts: Str): Word
    requires IsOptionWord(argv, i)
  {
    var g := argv[i].value[1..];
    var j := Leading(g, opts);
    var marks := Singles(g[..j], opts);
    if j == |g| then Group(marks)
    else if j + 1 < |g| then Attached(marks, g[j], g[j + 1..])
    else if i + 1 < |argv| then Apart(marks, g[j], argv[i + 1])
    else Lacking(marks, g[j])
  }

  lemma WordAtIs(argv: Argv, i: nat, opts: Str)
    requires IsOptionWord(argv, i)
    ensures var w := WordAt(argv, i, opts);
      && Proper(w, opts) && i + |Spelled(w)| <= |argv| && argv[i..i + |Spelled(w)|] == Spelled(w)
      && (w.Lacking? ==> i + 1 == |argv|)
  {
    hide WantsArg, TakesArg, Marked, Leading;
    var g, w := argv[i].value[1..], WordAt(argv, i, opts);
    var j := Leading(g, opts);
    forall k | 0 <= k < j ensures Marked(w.marks[k], opts) && w.marks[k].c == g[k] { SingleMarked(g[k], opts); }
    assert Chars(w.marks) == g[..j];
    assert argv[i].value == [DASH] + g;
    if j < |g| {
      WantingIs(g[j], opts);
      assert g == g[..j] + ([g[j]] + g[j + 1..]);
      assert [DASH] + g == [DASH] + g[..j] + ([g[j]] + g[j + 1..]);
      if j + 1 == |g| { assert [g[j]] + g[j + 1..] == [g[j]]; }
    }
    assert Text(w) == argv[i].value;
  }

  ghost function Words(argv: Argv, i: nat, opts: Str): seq<Word>
    decreases |argv| - i
  {
    if !IsOptionWord(argv, i) then []
    else var w := WordAt(argv, i, opts); [w] + Words(argv, i + |Spelled(w)|, opts)
  }

  /**
   * Every command line is a sentence of the grammar, with a rest that starts with no option word,
   * and is read as that sentence says.
   */
  lemma {:induction false} EveryLine(argv: Argv, i: nat, opts: Str)
    requires i <= |argv|
    ensures var ws := Words(argv, i, opts); var n := i + |SpelledAll(ws)|;
      && n <= |argv| && argv[i..n] == SpelledAll(ws) && Sentence(ws, argv[n..], opts)
      && !IsOptionWord(argv, n)
      && Items(argv, i, opts) == MeaningAll(ws)
      && Operands(argv, i, opts) == if n < |argv| && argv[n] == Some([DASH, DASH]) then n + 1 else n
    decreases |argv| - i
  {
    hide Proper, Meaning, Text, WordAt, Spelled, Items, Operands, Sentence;
    var ws := Words(argv, i, opts);
    if IsOptionWord(argv, i) {
      hide IsOptionWord;
      var w := WordAt(argv, i, opts);
      WordAtIs(argv, i, opts);
      FirstWord(argv, i, w, opts);
      var m := i + |Spelled(w)|;
      EveryLine(argv, m, opts);
      LineCons(argv, i, w, Words(argv, m, opts), opts);
    } else {
      NoWord(argv, i, opts);
    }
  }

  lemma NoWord(argv: Argv, i: nat, opts: Str)
    requires i <= |argv| && !IsOptionWord(argv, i)
    ensures Words(argv, i, opts) == [] && Items(argv, i, opts) == [] && Sentence([], argv[i..], opts)
    ensures Operands(argv, i, opts) == if i < |argv| && argv[i] == Some([DASH, DASH]) then i + 1 else i
  {}

  lemma LineCons(argv: Argv, i: nat, w: Word, ws: seq<Word>, opts: Str)
    requires Proper(w, opts) && i + |Spelled(w)| <= |argv| && argv[i..i + |Spelled(w)|] == Spelled(w)
    requires w.Lacking? ==> i + 1 == |argv|
    requires var m := i + |Spelled(w)|; var n := m + |SpelledAll(ws)|;
      n <= |argv| && argv[m..n] == SpelledAll(ws) && Sentence(ws, argv[n..], opts)
    ensures var n := i + |SpelledAll([w] + ws)|;
      && n == i + |Spelled(w)| + |SpelledAll(ws)|
      && argv[i..n] == SpelledAll([w] + ws) && Sentence([w] + ws, argv[n..], opts)
    ensures MeaningAll([w] + ws) == Meaning(w) + MeaningAll(ws)
  {
    hide Proper, Meaning, Text;
    var m := i + |Spelled(w)|;
    var n := m + |SpelledAll(ws)|;
    var all := [w] + ws;
    assert all[1..] == ws;
    assert argv[i..n] == argv[i..m] + argv[m..n];
    forall k | 0 <= k < |all| ensures Proper(all[k], opts) && (all[k].Lacking? ==> k == |all| - 1 && argv[n..] == []) {
      if k > 0 { assert all[k] == ws[k - 1]; }
    }
  }

  /** A whole command line: options, "--", operands. */
  lemma CommandLine(name: Option<Str>, ws: seq<Word>, operands: Argv, opts: Str)
    requires forall k {:trigger ws[k]} :: 0 <= k < |ws| ==> Proper(ws[k], opts) && !ws[k].Lacking?
    ensures var argv := [name] + SpelledAll(ws) + ([Some([DASH, DASH])] + operands);
      && Items(argv, 1, opts) == MeaningAll(ws)
      && Operands(argv, 1, opts) == |argv| - |operands| && argv[|argv| - |operands|..] == operands
  {
    var rest := [Some([DASH, DASH])] + operands;
    var argv := [name] + SpelledAll(ws) + rest;
    ReadBack(ws, [name], rest, opts);
    var end := 1 + |SpelledAll(ws)|;
    assert argv[end] == rest[0];
    assert Operands(argv, 1, opts) == end + 1;
    assert argv[end + 1..] == operands;
  }

  // ---------------------------------------------------------------- the program

  class Parser {
    /** The unread rest of the current word, when a call stopped inside one. */
    var o: Option<Str>
    var optind: nat
    var optarg: Option<Str>
    var optopt: int
    var opterr: bool
    /** The complaints printed so far. */
    var printed: seq<Item>

    /** The cursor is a nonempty tail of the word at optind. */
    ghost predicate Valid(argv: Argv)
      reads this
    {
      Inside(o, optind, argv)
    }

    /** The items that later calls report. */
    ghost function Ahead(argv: Argv, opts: Str): seq<Item>
      reads this
    {
      AheadOf(o, optind, argv, opts)
    }

    /** Where optind stands when they are all reported. */
    ghost function Final(argv: Argv, opts: Str): nat
      reads this
    {
      FinalOf(o, optind, argv, opts)
    }

    constructor ()
      ensures o == None && optind == 1 && optarg == None && optopt == 0 && opterr && printed == []
    {
      o, optind, optarg, optopt, opterr, printed := None, 1, None, 0, true, [];
    }

    /** One call: the next item of the command line, or -1 at the first operand. */
    method Getopt(argv: Argv, opts: Str) returns (retval: int)
      requires Valid(argv)
      modifies this
      ensures Valid(argv) && opterr == old(opterr)
      ensures old(Ahead(argv, opts)) != [] ==>
        && Answer(retval, optarg, optopt) == Reported(old(Ahead(argv, opts))[0], opts)
        && Ahead(argv, opts) == old(Ahead(argv, opts))[1..]
        && Final(argv, opts) == old(Final(argv, opts))
        && printed == old(printed) + Complaint(old(Ahead(argv, opts))[0], opterr, opts)
      ensures old(Ahead(argv, opts)) == [] ==>
        && Answer(retval, optarg, optopt) == Done && o == None && optind == old(Final(argv, opts)) && printed == old(printed)
      ensures var g := old(AtCursor(o, optind, argv)); g.Some? && (g.value[0] == COLON || g.value[0] !in opts) ==>
        && retval == QUESTION && optopt == Plain(g.value[0]) && optarg == None
        && printed == old(printed) + if opterr && !(opts != [] && opts[0] == COLON) then [Unknown(g.value[0])] else []
      ensures var g := old(AtCursor(o, optind, argv)); g.Some? && g.value[0] != COLON && g.value[0] in opts && !TakesArg(g.value[0], opts) ==>
        retval == g.value[0] && optopt == 0 && optarg == None && printed == old(printed)
      ensures var g := old(AtCursor(o, optind, argv));
        g.Some? && g.value[0] != COLON && g.value[0] in opts && TakesArg(g.value[0], opts) && (|g.value| > 1 || old(optind) + 1 < |argv|) ==>
        && retval == g.value[0] && optopt == 0 && printed == old(printed)
        && optarg == if |g.value| > 1 then Some(g.value[1..]) else argv[old(optind) + 1]
      ensures var g := old(AtCursor(o, optind, argv));
        g.Some? && g.value[0] != COLON && g.value[0] in opts && TakesArg(g.value[0], opts) && |g.value| == 1 && old(optind) + 1 >= |argv| ==>
        && retval == (if opts != [] && opts[0] == COLON then COLON else QUESTION) && optopt == Plain(g.value[0]) && optarg == None
        && printed == old(printed) + if opterr && !(opts != [] && opts[0] == COLON) then [Missing(g.value[0])] else []
      ensures old(AtCursor(o, optind, argv)).None? ==> retval == -1 && optopt == 0 && optarg == None && printed == old(printed)
      ensures optopt == 0 ==> retval == -1 || (retval != COLON && retval in opts)
      ensures optopt != 0 ==> retval == QUESTION || (retval == COLON && opts != [] && opts[0] == COLON)
    {
      hide AheadOf, FinalOf, Reported, Complaint;
      optopt, optarg := 0, None;
      if o.None? {
        if !IsOptionWord(argv, optind) { Closed(argv, optind, opts); } else { OpenWord(argv, optind, opts); }
        if optind >= |argv| || argv[optind].None? || !OptionStart(argv[optind].value) {
          retval := -1;
          return;
        }
        var p := argv[optind].value[1..];
        if p == [DASH] {
          assert argv[optind].value == [DASH, DASH];
          optind := optind + 1;
          retval := -1;
          return;
        }
        assert argv[optind].value != [DASH, DASH];
        o := Some(p);
      }
      retval := TakeOne(argv, opts);
    }

    /** The option at the cursor. */
    method TakeOne(argv: Argv, opts: Str) returns (retval: int)
      requires Valid(argv) && o.Some? && optarg == None && optopt == 0
      modifies this
      ensures Valid(argv) && opterr == old(opterr)
      ensures old(Ahead(argv, opts)) != []
      ensures Answer(retval, optarg, optopt) == Reported(old(Ahead(argv, opts))[0], opts)
      ensures Ahead(argv, opts) == old(Ahead(argv, opts))[1..] && Final(argv, opts) == old(Final(argv, opts))
      ensures printed == old(printed) + Complaint(old(Ahead(argv, opts))[0], opterr, opts)
      ensures var g := old(o); (g.value[0] == COLON || g.value[0] !in opts) ==>
        && retval == QUESTION && optopt == Plain(g.value[0]) && optarg == None
        && printed == old(printed) + if opterr && !(opts != [] && opts[0] == COLON) then [Unknown(g.value[0])] else []
      ensures var g := old(o); g.value[0] != COLON && g.value[0] in opts && !TakesArg(g.value[0], opts) ==>
        retval == g.value[0] && optopt == 0 && optarg == None && printed == old(printed)
      ensures var g := old(o);
        g.value[0] != COLON && g.value[0] in opts && TakesArg(g.value[0], opts) && (|g.value| > 1 || old(optind) + 1 < |argv|) ==>
        && retval == g.value[0] && optopt == 0 && printed == old(printed)
        && optarg == if |g.value| > 1 then Some(g.value[1..]) else argv[old(optind) + 1]
      ensures var g := old(o);
        g.value[0] != COLON && g.value[0] in opts && TakesArg(g.value[0], opts) && |g.value| == 1 && old(optind) + 1 >= |argv| ==>
        && retval == (if opts != [] && opts[0] == COLON then COLON else QUESTION) && optopt == Plain(g.value[0]) && optarg == None
        && printed == old(printed) + if opterr && !(opts != [] && opts[0] == COLON) then [Missing(g.value[0])] else []
    {
      hide WantsArg, AheadOf, FinalOf, Inside;
      ghost var g := o.value;
      InsideIs(g, optind, argv);
      StillInside(g, optind, argv);
      var c := o.value[0];
      var s := Strchr(opts, c);
      if c != COLON && s != -1 && s + 1 < |opts| && opts[s + 1] == COLON {
        Wanting(c, opts, s);
        StepArg(argv, optind, g, opts);
        retval := TakeArg(argv, opts);
        return;
      }
      retval := c;
      if c == COLON || s == -1 {
        NotWanting(c, opts);
        retval := Complain(Unknown(c), QUESTION, opts);
      } else {
        Wanting(c, opts, s);
      }
      StepSingle(argv, optind, g, opts);
      if |o.value| == 1 {
        o := None;
        optind := optind + 1;
      } else {
        o := Some(o.value[1..]);
      }
    }

    /** The option at the cursor takes an argument: the rest of the word or the next word. */
    method TakeArg(argv: Argv, opts: Str) returns (retval: int)
      requires o.Some? && o.value != [] && optarg == None && optopt == 0
      modifies this
      ensures o == None && opterr == old(opterr)
      ensures optind == if |old(o).value| == 1 && old(optind) + 1 < |argv| then old(optind) + 2 else old(optind) + 1
      ensures var it := ArgItem(argv, old(optind), old(o).value[0], old(o).value[1..]);
        Answer(retval, optarg, optopt) == Reported(it, opts) && printed == old(printed) + Complaint(it, opterr, opts)
    {
      retval := o.value[0];
      if |o.value| > 1 {
        optarg := Some(o.value[1..]);
      } else if optind + 1 < |argv| {
        optind := optind + 1;
        optarg := argv[optind];
      } else {
        retval := Complain(Missing(o.value[0]), COLON, opts);
      }
      o := None;
      optind := optind + 1;
    }

    /** The code at BAD: optopt, the answer and the message. */
    method Complain(it: Item, quietly: Char, opts: Str) returns (retval: int)
      requires it.Unknown? || it.Missing?
      modifies this`optopt, this`printed
      ensures optopt == Plain(it.c) && printed == old(printed) + Complaint(it, opterr, opts)
      ensures retval == if Quiet(opts) then quietly else QUESTION
    {
      optopt := Plain(it.c);
      retval := quietly;
      if !Quiet(opts) {
        retval := QUESTION;
        if opterr { printed := printed + [it]; }
      }
    }

    /**
     * Calls until -1: the answers and messages are those of the command line read at once,
     * and optind ends at its first operand.
     */
    method Drain(argv: Argv, opts: Str) returns (answers: seq<Answer>)
      requires Valid(argv)
      modifies this
      ensures answers == Answers(old(Ahead(argv, opts)), opts)
      ensures printed == old(printed) + Complaints(old(Ahead(argv, opts)), opterr, opts)
      ensures o == None && optind == old(Final(argv, opts)) && opterr == old(opterr)
      ensures |answers| == |old(Ahead(argv, opts))| + 1
      ensures forall a :: a in answers && a.optopt == 0 ==> a == Done || (a.retval != COLON && a.retval in opts)
      ensures forall a :: a in answers && a.optopt != 0 ==> a.retval == QUESTION || (a.retval == COLON && opts != [] && opts[0] == COLON)
    {
      hide Answers, Complaints, Complaint, AheadOf, FinalOf, Plain;
      ghost var all, final, said, n := Ahead(argv, opts), Final(argv, opts), printed, 0;
      answers := [];
      var more := true;
      while more
        invariant Valid(argv) && opterr == old(opterr) && 0 <= n <= |all|
        invariant more ==> Ahead(argv, opts) == all[n..] && Final(argv, opts) == final
        invariant more ==> answers + Answers(all[n..], opts) == Answers(all, opts)
        invariant more ==> printed + Complaints(all[n..], opterr, opts) == said + Complaints(all, opterr, opts)
        invariant !more ==> answers == Answers(all, opts) && printed == said + Complaints(all, opterr, opts)
        invariant !more ==> o == None && optind == final
        invariant |answers| == if more then n else |all| + 1
        invariant forall a :: a in answers && a.optopt == 0 ==> a == Done || (a.retval != COLON && a.retval in opts)
        invariant forall a :: a in answers && a.optopt != 0 ==> a.retval == QUESTION || (a.retval == COLON && opts != [] && opts[0] == COLON)
        decreases more, |all| - n
      {
        if n < |all| {
          AnswersStep(answers, all[n..], opts);
          ComplaintsStep(printed, all[n..], opterr, opts);
          assert all[n..][1..] == all[n + 1..];
        } else {
          NothingMore(opterr, opts);
        }
        var r := Getopt(argv, opts);
        answers := answers + [Answer(r, optarg, optopt)];
        if r == -1 {
          more := false;
        } else {
          n := n + 1;
        }
      }
    }
  }
}
