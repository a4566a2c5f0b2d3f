/**
 * The command-string helpers of `ArgParser`: `searchDoubleQuotes`,
 * `removeDoubleQuotes`, `splitCommandString` (a command line split at the
 * spaces that no pair of double quotes encloses) and `assembleCommand`
 * (the inverse join, quoting every argument that holds a space).
 */
module CommandString {
  import opened Maybe

  /** `std::string::find(c, from)`: the first index at or after `from` that holds `c`, or none (`npos`). */
  function Find(s: string, c: char, from: nat): (r: Option<nat>)
    ensures r.Some? ==> from <= r.value < |s| && s[r.value] == c
    ensures r.Some? ==> forall k :: from <= k < r.value ==> s[k] != c
    ensures r.None? ==> forall k :: from <= k < |s| ==> s[k] != c
    decreases |s| - from
  {
    if from >= |s| then None
    else if s[from] == c then Some(from)
    else Find(s, c, from + 1)
  }

  /** The reference results of `searchDoubleQuotes`: its return value and `left`, `right`. */
  datatype QuotePair = QuotePair(found: bool, left: nat, right: nat)

  /**
   * `searchDoubleQuotes(command, left, right, startPos)`: the first two `"`
   * at or after `startPos`; when there are fewer than two, false with
   * `left == right == 0`.
   */
  function SearchDoubleQuotes(command: string, startPos: nat): (q: QuotePair)
    ensures q.found ==> startPos <= q.left < q.right < |command|
    ensures q.found ==> command[q.left] == '"' && command[q.right] == '"'
    ensures q.found ==> forall k :: startPos <= k < q.right && k != q.left ==> command[k] != '"'
    ensures !q.found ==> q.left == 0 && q.right == 0
    ensures !q.found ==> forall j, k :: startPos <= j < k < |command| ==> !(command[j] == '"' && command[k] == '"')
  {
    match Find(command, '"', startPos)
    case None => QuotePair(false, 0, 0)
    case Some(l) =>
      match Find(command, '"', l + 1)
      case None => QuotePair(false, 0, 0)
      case Some(r) => QuotePair(true, l, r)
  }

  /** `arg` starts and ends with `"` (on an empty string `arg[0]` is the terminating NUL). */
  predicate IsQuoted(arg: string) {
    |arg| >= 1 && arg[0] == '"' && arg[|arg| - 1] == '"'
  }

  /**
   * `removeDoubleQuotes`: strips one enclosing pair of quotes. The lone `"`
   * becomes empty, as `substr(1, npos)` of a one-character string is.
   */
  function RemoveDoubleQuotes(arg: string): (r: string)
    ensures IsQuoted(arg) && |arg| >= 2 ==> arg == "\"" + r + "\""
    ensures arg == "\"" ==> r == ""
    ensures !IsQuoted(arg) ==> r == arg
  {
    if IsQuoted(arg) then (if |arg| >= 2 then arg[1..|arg| - 1] else "") else arg
  }

  /** The pieces of a split command with their enclosing quotes removed. */
  function Unquoted(pieces: seq<string>): (r: seq<string>)
    ensures |r| == |pieces|
    decreases |pieces|
  {
    if pieces == [] then []
    else Unquoted(pieces[..|pieces| - 1]) + [RemoveDoubleQuotes(pieces[|pieces| - 1])]
  }

  /** Each piece is unquoted on its own. */
  lemma {:induction false} UnquotedAt(pieces: seq<string>, i: nat)
    requires i < |pieces|
    ensures Unquoted(pieces)[i] == RemoveDoubleQuotes(pieces[i])
    decreases |pieces|
  {
    if i < |pieces| - 1 {
      UnquotedAt(pieces[..|pieces| - 1], i);
    }
  }

  lemma UnquotedAppend(pieces: seq<string>, piece: string)
    ensures Unquoted(pieces + [piece]) == Unquoted(pieces) + [RemoveDoubleQuotes(piece)]
  {
  }

  /** Whether `s` holds an odd number of double quotes. */
  function QuoteParity(s: string): bool {
    if s == [] then false else (s[0] == '"') != QuoteParity(s[1..])
  }

  lemma {:induction false} QuoteParityAppend(a: string, b: string)
    ensures QuoteParity(a + b) == (QuoteParity(a) != QuoteParity(b))
    decreases |a|
  {
    if a != [] {
      assert (a + b)[0] == a[0];
      assert (a + b)[1..] == a[1..] + b;
      assert a + b != [];
      assert QuoteParity(a + b) == (((a + b)[0] == '"') != QuoteParity((a + b)[1..]));
      assert QuoteParity(a) == ((a[0] == '"') != QuoteParity(a[1..]));
      QuoteParityAppend(a[1..], b);
    } else {
      assert a + b == b;
    }
  }

  /** A string without quotes has even parity. */
  lemma {:induction false} NoQuoteParity(s: string)
    requires '"' !in s
    ensures !QuoteParity(s)
    decreases |s|
  {
    if s != [] {
      assert s == [s[0]] + s[1..];
      NoQuoteParity(s[1..]);
    }
  }

  /**
   * The space at `p` lies between a matched pair of quotes: an odd number of
   * quotes precede it and a closing one follows it. Quotes pair up left to
   * right, so a last unmatched quote protects nothing.
   */
  predicate Protected(s: string, p: nat)
    requires p < |s|
  {
    QuoteParity(s[..p]) && '"' in s[p + 1..]
  }

  /** `h` glued to the front of the first piece of `r`. */
  function Prepend(h: string, r: seq<string>): (r': seq<string>)
    requires |r| >= 1
    ensures |r'| == |r| && r'[0] == h + r[0] && r'[1..] == r[1..]
  {
    [h + r[0]] + r[1..]
  }

  lemma PrependAssoc(a: string, b: string, r: seq<string>)
    requires |r| >= 1
    ensures Prepend(a, Prepend(b, r)) == Prepend(a + b, r)
  {
    assert a + (b + r[0]) == (a + b) + r[0];
  }

  /**
   * The pieces `s` falls into when it is split at every space not protected,
   * `odd` telling whether an odd number of quotes came before `s`.
   */
  function Cut(s: string, odd: bool): (pieces: seq<string>)
    ensures |pieces| >= 1
    decreases |s|
  {
    if s == [] then [""]
    else if s[0] == ' ' && !(odd && '"' in s[1..]) then [""] + Cut(s[1..], odd)
    else Prepend([s[0]], Cut(s[1..], if s[0] == '"' then !odd else odd))
  }

  /**
   * What `splitCommandString` is meant to append: nothing for the empty
   * command, otherwise the pieces between unprotected spaces, unquoted.
   */
  function SplitSpec(command: string): (argv: seq<string>)
    ensures command == [] <==> argv == []
  {
    if command == [] then [] else Unquoted(Cut(command, false))
  }

  /** A run without spaces stays in the current piece; only its quotes change the parity. */
  lemma {:induction false} CutNoSpace(s: string, t: string, odd: bool)
    requires ' ' !in s
    ensures Cut(s + t, odd) == Prepend(s, Cut(t, odd != QuoteParity(s)))
    decreases |s|
  {
    if s == [] {
      assert s + t == t;
      assert Prepend(s, Cut(t, odd)) == Cut(t, odd) by {
        assert s + Cut(t, odd)[0] == Cut(t, odd)[0];
      }
    } else {
      var odd' := if s[0] == '"' then !odd else odd;
      assert (s + t)[0] == s[0];
      assert (s + t)[1..] == s[1..] + t;
      assert s == [s[0]] + s[1..];
      CutNoSpace(s[1..], t, odd');
      PrependAssoc([s[0]], s[1..], Cut(t, odd' != QuoteParity(s[1..])));
      assert [s[0]] + s[1..] == s;
    }
  }

  /** A run without quotes after an opening quote, with a closing quote later, stays in the current piece. */
  lemma {:induction false} CutProtectedRun(s: string, t: string)
    requires '"' !in s && '"' in t
    ensures Cut(s + t, true) == Prepend(s, Cut(t, true))
    decreases |s|
  {
    if s == [] {
      assert s + t == t;
      assert s + Cut(t, true)[0] == Cut(t, true)[0];
    } else {
      assert (s + t)[0] == s[0];
      assert (s + t)[1..] == s[1..] + t;
      assert '"' in (s + t)[1..] by {
        var k :| 0 <= k < |t| && t[k] == '"';
        assert (s + t)[1..][|s| - 1 + k] == '"';
      }
      assert s == [s[0]] + s[1..];
      CutProtectedRun(s[1..], t);
      PrependAssoc([s[0]], s[1..], Cut(t, true));
      assert [s[0]] + s[1..] == s;
    }
  }

  /** From `pos` up to the next space at `q`, the text joins the current piece. */
  lemma SkipToSpace(command: string, pos: nat, q: nat)
    requires pos <= q <= |command|
    requires forall k :: pos <= k < q ==> command[k] != ' '
    ensures Cut(command[pos..], QuoteParity(command[..pos])) ==
            Prepend(command[pos..q], Cut(command[q..], QuoteParity(command[..q])))
  {
    assert command[pos..] == command[pos..q] + command[q..];
    assert command[..q] == command[..pos] + command[pos..q];
    QuoteParityAppend(command[..pos], command[pos..q]);
    CutNoSpace(command[pos..q], command[q..], QuoteParity(command[..pos]));
  }

  /** At a space, the split cuts exactly when the space is not protected. */
  lemma StepOverSpace(command: string, q: nat)
    requires q < |command| && command[q] == ' '
    ensures !Protected(command, q) ==>
              Cut(command[q..], QuoteParity(command[..q])) == [""] + Cut(command[q + 1..], QuoteParity(command[..q + 1]))
    ensures Protected(command, q) ==>
              Cut(command[q..], QuoteParity(command[..q])) == Prepend(" ", Cut(command[q + 1..], QuoteParity(command[..q + 1])))
  {
    assert command[..q + 1] == command[..q] + [' '];
    QuoteParityAppend(command[..q], [' ']);
    assert QuoteParity([' ']) == false by {
      assert [' '][1..] == [];
    }
    assert command[q..][1..] == command[q + 1..];
  }

  /** At an unprotected space of the corrected loop, the pending piece is cut. */
  lemma CutAdvanceCut(command: string, startPos: nat, pos: nat, q: nat)
    requires startPos <= pos <= q < |command| && command[q] == ' '
    requires forall k :: pos <= k < q ==> command[k] != ' '
    requires !Protected(command, q)
    ensures Prepend(command[startPos..pos], Cut(command[pos..], QuoteParity(command[..pos]))) ==
            [command[startPos..q]] + Prepend(command[q + 1..q + 1], Cut(command[q + 1..], QuoteParity(command[..q + 1])))
  {
    var rest := Cut(command[q + 1..], QuoteParity(command[..q + 1]));
    SkipToSpace(command, pos, q);
    StepOverSpace(command, q);
    PrependAssoc(command[startPos..pos], command[pos..q], Cut(command[q..], QuoteParity(command[..q])));
    assert command[startPos..pos] + command[pos..q] == command[startPos..q];
    assert command[q + 1..q + 1] + rest[0] == rest[0];
    assert command[startPos..q] + "" == command[startPos..q];
  }

  /** At a protected space of the corrected loop, the space joins the pending piece. */
  lemma CutAdvanceJoin(command: string, startPos: nat, pos: nat, q: nat)
    requires startPos <= pos <= q < |command| && command[q] == ' '
    requires forall k :: pos <= k < q ==> command[k] != ' '
    requires Protected(command, q)
    ensures Prepend(command[startPos..pos], Cut(command[pos..], QuoteParity(command[..pos]))) ==
            Prepend(command[startPos..q + 1], Cut(command[q + 1..], QuoteParity(command[..q + 1])))
  {
    var rest := Cut(command[q + 1..], QuoteParity(command[..q + 1]));
    SkipToSpace(command, pos, q);
    StepOverSpace(command, q);
    PrependAssoc(command[startPos..pos], command[pos..q], Cut(command[q..], QuoteParity(command[..q])));
    assert command[startPos..pos] + command[pos..q] == command[startPos..q];
    PrependAssoc(command[startPos..q], " ", rest);
    assert command[startPos..q] + " " == command[startPos..q + 1];
  }

  /** Past the last space, the rest of the command is the last piece. */
  lemma CutFinish(command: string, startPos: nat, pos: nat)
    requires startPos <= pos <= |command|
    requires forall k :: pos <= k < |command| ==> command[k] != ' '
    ensures Prepend(command[startPos..pos], Cut(command[pos..], QuoteParity(command[..pos]))) == [command[startPos..]]
  {
    SkipToSpace(command, pos, |command|);
    assert command[|command|..] == [];
    assert command[startPos..pos] + command[pos..|command|] == command[startPos..];
    PrependAssoc(command[startPos..pos], command[pos..|command|], [""]);
    assert command[startPos..] + "" == command[startPos..];
  }

  /**
   * The state of the corrected splitting loop: `done` holds the pieces cut
   * so far, `out` their unquoted copies after `argv`, and the pending piece
   * starting at `startPos` continues into what `Cut` makes of the rest.
   */
  ghost predicate SplitInv(command: string, argv: seq<string>, out: seq<string>, done: seq<string>, startPos: nat, pos: nat)
  {
    startPos <= pos <= |command| &&
    Cut(command, false) == done + Prepend(command[startPos..pos], Cut(command[pos..], QuoteParity(command[..pos]))) &&
    out == argv + Unquoted(done)
  }

  lemma SplitInvInit(command: string, argv: seq<string>)
    ensures SplitInv(command, argv, argv, [], 0, 0)
  {
    assert command[..0] == [] && command[0..] == command;
    assert Prepend(command[0..0], Cut(command, false)) == Cut(command, false) by {
      assert command[0..0] + Cut(command, false)[0] == Cut(command, false)[0];
    }
  }

  /** At an unprotected space `q`, the pending piece is closed and a new one starts after `q`. */
  lemma SplitInvCut(command: string, argv: seq<string>, out: seq<string>, done: seq<string>, startPos: nat, pos: nat, q: nat)
    requires SplitInv(command, argv, out, done, startPos, pos)
    requires pos <= q < |command| && command[q] == ' '
    requires forall k :: pos <= k < q ==> command[k] != ' '
    requires !Protected(command, q)
    ensures startPos <= q
    ensures SplitInv(command, argv, out + [RemoveDoubleQuotes(command[startPos..q])], done + [command[startPos..q]], q + 1, q + 1)
  {
    var piece := command[startPos..q];
    var rest := Prepend(command[q + 1..q + 1], Cut(command[q + 1..], QuoteParity(command[..q + 1])));
    CutAdvanceCut(command, startPos, pos, q);
    ShiftPiece(Cut(command, false), done, piece, rest);
    OutAppend(argv, out, done, piece);
  }

  lemma ShiftPiece(all: seq<string>, done: seq<string>, piece: string, rest: seq<string>)
    requires all == done + ([piece] + rest)
    ensures all == (done + [piece]) + rest
  {
  }

  lemma OutAppend(argv: seq<string>, out: seq<string>, done: seq<string>, piece: string)
    requires out == argv + Unquoted(done)
    ensures out + [RemoveDoubleQuotes(piece)] == argv + Unquoted(done + [piece])
  {
  }

  /** At a protected space `q`, the pending piece runs on past `q`. */
  lemma SplitInvJoin(command: string, argv: seq<string>, out: seq<string>, done: seq<string>, startPos: nat, pos: nat, q: nat)
    requires SplitInv(command, argv, out, done, startPos, pos)
    requires pos <= q < |command| && command[q] == ' '
    requires forall k :: pos <= k < q ==> command[k] != ' '
    requires Protected(command, q)
    ensures SplitInv(command, argv, out, done, startPos, q + 1)
  {
    CutAdvanceJoin(command, startPos, pos, q);
  }

  /** Past the last space, the pending piece is the last one. */
  lemma SplitInvFinish(command: string, argv: seq<string>, out: seq<string>, done: seq<string>, startPos: nat, pos: nat)
    requires command != []
    requires SplitInv(command, argv, out, done, startPos, pos)
    requires forall k :: pos <= k < |command| ==> command[k] != ' '
    ensures startPos <= |command|
    ensures out + [RemoveDoubleQuotes(command[startPos..])] == argv + SplitSpec(command)
  {
    var last := command[startPos..];
    CutFinish(command, startPos, pos);
    assert Cut(command, false) == done + [last];
    OutAppend(argv, out, done, last);
  }

  /**
   * One round of the corrected loop at the next space `q`: the piece before
   * `q` is cut off and unquoted unless a matched pair encloses `q`.
   */
  method SplitAt(command: string, argv: seq<string>, out0: seq<string>, ghost done0: seq<string>, startPos0: nat, pos0: nat, q: nat)
    returns (out: seq<string>, ghost done: seq<string>, startPos: nat, pos: nat)
    requires SplitInv(command, argv, out0, done0, startPos0, pos0)
    requires pos0 <= q < |command| && command[q] == ' '
    requires forall k :: pos0 <= k < q ==> command[k] != ' '
    ensures pos == q + 1
    ensures SplitInv(command, argv, out, done, startPos, pos)
  {
    out, done, startPos, pos := out0, done0, startPos0, q + 1;
    if !Protected(command, q) {
      SplitInvCut(command, argv, out, done, startPos, pos0, q);
      out := out + [RemoveDoubleQuotes(command[startPos..q])];
      done := done + [command[startPos..q]];
      startPos := q + 1;
    } else {
      SplitInvJoin(command, argv, out, done, startPos, pos0, q);
    }
  }

  /**
   * `splitCommandString` with the pair bookkeeping corrected: it appends to
   * `argv` the pieces of `command` between the spaces no matched pair of
   * quotes encloses, each unquoted, and nothing for the empty command.
   */
  method SplitCommandString(command: string, argv: seq<string>) returns (out: seq<string>)
    ensures out == argv + SplitSpec(command)
  {
    if command == [] {
      return argv;
    }
    out := argv;
    ghost var done: seq<string> := [];
    var startPos: nat := 0;
    var pos: nat := 0;
    var space := Find(command, ' ', 0);
    SplitInvInit(command, argv);
    while space.Some?
      invariant SplitInv(command, argv, out, done, startPos, pos)
      invariant space == Find(command, ' ', pos)
      decreases |command| - pos
    {
      var q := space.value;
      out, done, startPos, pos := SplitAt(command, argv, out, done, startPos, pos, q);
      space := Find(command, ' ', pos);
    }
    SplitInvFinish(command, argv, out, done, startPos, pos);
    out := out + [RemoveDoubleQuotes(command[startPos..])];
  }

  /**
   * The loop of `splitCommandString` AS WRITTEN, from `startPos` and the
   * space found last, with the quote pair it holds: a space strictly inside
   * the pair is skipped; a space past the pair triggers one search for the
   * next pair from `right + 1`, and splits regardless. After a failed search
   * the pair is `0, 0`, so the next search starts again from index 1.
   */
  function SplitLoopAsWritten(command: string, startPos: nat, space: Option<nat>, q: QuotePair): (pieces: seq<string>)
    requires startPos <= |command|
    requires space.Some? ==> startPos <= space.value < |command|
    ensures |pieces| >= 1
    decreases if space.Some? then |command| - space.value else 0
  {
    match space
    case None => [RemoveDoubleQuotes(command[startPos..])]
    case Some(sp) =>
      var ignore := sp > q.left && sp < q.right;
      var q' := if !ignore && sp > q.right then SearchDoubleQuotes(command, q.right + 1) else q;
      if ignore then SplitLoopAsWritten(command, startPos, Find(command, ' ', q.right + 1), q')
      else [RemoveDoubleQuotes(command[startPos..sp])] + SplitLoopAsWritten(command, sp + 1, Find(command, ' ', sp + 1), q')
  }

  /** What `splitCommandString` appends, AS WRITTEN. */
  function SplitAsWritten(command: string): (pieces: seq<string>)
    ensures command == [] <==> pieces == []
  {
    if command == [] then []
    else SplitLoopAsWritten(command, 0, Find(command, ' ', 0), SearchDoubleQuotes(command, 0))
  }

  /**
   * FINDING, as written: in `"a" b c "d` the last quote is unmatched, the
   * failed search resets the pair to `0, 0`, and the next search pairs the
   * already consumed quote at index 2 with it, so `c` and `"d` are merged.
   */
  lemma UnmatchedQuoteMergesAsWritten()
    ensures SplitAsWritten("\"a\" b c \"d") == ["a", "b", "c \"d"]
    ensures SplitSpec("\"a\" b c \"d") == ["a", "b", "c", "\"d"]
  {
    var s := "\"a\" b c \"d";
    QuotesOfUnmatched();
    SpacesOfUnmatched();
    PiecesOfUnmatched();
    var q1 := QuotePair(false, 0, 0);
    var q2 := QuotePair(true, 2, 8);
    assert SplitLoopAsWritten(s, 6, Some(7), q2) == ["c \"d"];
    assert SplitLoopAsWritten(s, 4, Some(5), q1) == ["b", "c \"d"];
    assert SplitLoopAsWritten(s, 0, Some(3), QuotePair(true, 0, 2)) == ["a", "b", "c \"d"];
    SplitSpecOfUnmatched();
  }

  /** The quote pairs the searches of the as-written loop find in `"a" b c "d`. */
  lemma QuotesOfUnmatched()
    ensures SearchDoubleQuotes("\"a\" b c \"d", 0) == QuotePair(true, 0, 2)
    ensures SearchDoubleQuotes("\"a\" b c \"d", 3) == QuotePair(false, 0, 0)
    ensures SearchDoubleQuotes("\"a\" b c \"d", 1) == QuotePair(true, 2, 8)
  {
  }

  /** The spaces of `"a" b c "d`. */
  lemma SpacesOfUnmatched()
    ensures Find("\"a\" b c \"d", ' ', 0) == Some(3)
    ensures Find("\"a\" b c \"d", ' ', 4) == Some(5)
    ensures Find("\"a\" b c \"d", ' ', 6) == Some(7)
    ensures Find("\"a\" b c \"d", ' ', 9) == None
  {
  }

  /** The unquoted pieces the as-written loop pushes for `"a" b c "d`. */
  lemma PiecesOfUnmatched()
    ensures RemoveDoubleQuotes("\"a\" b c \"d"[0..3]) == "a"
    ensures RemoveDoubleQuotes("\"a\" b c \"d"[4..5]) == "b"
    ensures RemoveDoubleQuotes("\"a\" b c \"d"[6..]) == "c \"d"
  {
    var s := "\"a\" b c \"d";
    assert s[0..3] == "\"a\"" && s[4..5] == "b" && s[6..] == "c \"d";
    assert "\"a\""[1..2] == "a";
  }

  /** A quoted run without quotes inside has even parity. */
  lemma QuotedRunParity(x: string)
    requires '"' !in x
    ensures !QuoteParity("\"" + x + "\"")
  {
    assert "\"" + x + "\"" == "\"" + (x + "\"");
    QuoteParityAppend("\"", x + "\"");
    QuoteParityAppend(x, "\"");
    NoQuoteParity(x);
    assert "\""[1..] == [];
  }

  /** A space the parity leaves unprotected ends the current piece. */
  lemma CutAtSpace(t: string)
    ensures Cut(" " + t, false) == [""] + Cut(t, false)
  {
  }

  /** A word without spaces or quotes, then a space: one piece, then the rest. */
  lemma CutWord(w: string, t: string)
    requires ' ' !in w && '"' !in w
    ensures Cut(w + " " + t, false) == [w] + Cut(t, false)
  {
    assert w + " " + t == w + (" " + t);
    CutNoSpace(w, " " + t, false);
    NoQuoteParity(w);
    CutAtSpace(t);
    assert w + "" == w;
  }

  /** The command line `"a" b c "d`, for words `a` to `d`. */
  function UnmatchedLine(a: string, b: string, c: string, d: string): string {
    "\"" + a + "\" " + b + " " + c + " \"" + d
  }

  lemma UnmatchedLineParts(a: string, b: string, c: string, d: string)
    ensures UnmatchedLine(a, b, c, d) == ("\"" + a + "\"") + (" " + (b + " " + (c + " " + ("\"" + d))))
  {
  }

  /** Quoting adds no space. */
  lemma QuotingAddsNoSpace(a: string)
    requires ' ' !in a
    ensures ' ' !in "\"" + a + "\"" && ' ' !in "\"" + a
  {
  }

  /** The pieces of `"a" b c "d`, for any words `a` to `d`. */
  lemma CutOfUnmatchedShape(a: string, b: string, c: string, d: string)
    requires ' ' !in a && '"' !in a && ' ' !in b && '"' !in b
    requires ' ' !in c && '"' !in c && ' ' !in d && '"' !in d
    ensures Cut(UnmatchedLine(a, b, c, d), false) == ["\"" + a + "\"", b, c, "\"" + d]
  {
    var qa := "\"" + a + "\"";
    var last := "\"" + d;
    var tail := b + " " + (c + " " + last);
    UnmatchedLineParts(a, b, c, d);
    QuotingAddsNoSpace(a);
    QuotingAddsNoSpace(d);
    QuotedRunParity(a);
    CutNoSpace(qa, " " + tail, false);
    CutAtSpace(tail);
    assert qa + "" == qa;
    CutWord(b, c + " " + last);
    CutWord(c, last);
    CutNoSpace(last, "", false);
    assert last + "" == last;
  }

  /**
   * The intended split of `"a" b c "d`, for any words `a` to `d`: the quoted
   * first word is one piece, and the unmatched quote protects nothing.
   */
  lemma SplitSpecOfUnmatchedShape(a: string, b: string, c: string, d: string)
    requires ' ' !in a && '"' !in a && ' ' !in b && '"' !in b
    requires ' ' !in c && '"' !in c && ' ' !in d && '"' !in d && d != ""
    ensures SplitSpec(UnmatchedLine(a, b, c, d)) == [a, b, c, "\"" + d]
  {
    var qa := "\"" + a + "\"";
    var last := "\"" + d;
    CutOfUnmatchedShape(a, b, c, d);
    assert qa[1..|qa| - 1] == a;
    assert last[|last| - 1] in d;
    PlainUnquoted(b);
    PlainUnquoted(c);
    var pieces := [qa, b, c, last];
    UnquotedAt(pieces, 0);
    UnquotedAt(pieces, 1);
    UnquotedAt(pieces, 2);
    UnquotedAt(pieces, 3);
  }

  /** The intended split of `"a" b c "d`. */
  lemma SplitSpecOfUnmatched()
    ensures SplitSpec("\"a\" b c \"d") == ["a", "b", "c", "\"d"]
  {
    assert ' ' !in "a" && '"' !in "a" && ' ' !in "b" && '"' !in "b";
    assert ' ' !in "c" && '"' !in "c" && ' ' !in "d" && '"' !in "d";
    SplitSpecOfUnmatchedShape("a", "b", "c", "d");
    assert UnmatchedLine("a", "b", "c", "d") == "\"a\" b c \"d";
    assert "\"" + "d" == "\"d";
  }

  /**
   * FINDING, as written: in `"a""b c"` every quote is matched, but the loop
   * holds the pair at 0 and 2 when it reaches the space at 5. That space lies
   * past the pair, so the loop searches for the next pair (3 and 7) and still
   * splits at it, although the new pair encloses it.
   */
  lemma LaterPairIgnoredAsWritten()
    ensures SplitAsWritten("\"a\"\"b c\"") == ["\"a\"\"b", "c\""]
    ensures SplitSpec("\"a\"\"b c\"") == ["a\"\"b c"]
  {
    var s := "\"a\"\"b c\"";
    SplitFactsOfAdjacent();
    PiecesOfAdjacent();
    assert SplitLoopAsWritten(s, 6, None, QuotePair(true, 3, 7)) == ["c\""];
    assert SplitLoopAsWritten(s, 0, Some(5), QuotePair(true, 0, 2)) == ["\"a\"\"b", "c\""];
    SplitSpecOfAdjacent();
  }

  /** The quote pairs and spaces the as-written loop finds in `"a""b c"`. */
  lemma SplitFactsOfAdjacent()
    ensures SearchDoubleQuotes("\"a\"\"b c\"", 0) == QuotePair(true, 0, 2)
    ensures SearchDoubleQuotes("\"a\"\"b c\"", 3) == QuotePair(true, 3, 7)
    ensures Find("\"a\"\"b c\"", ' ', 0) == Some(5)
    ensures Find("\"a\"\"b c\"", ' ', 6) == None
  {
  }

  /** The unquoted pieces the as-written loop pushes for `"a""b c"`. */
  lemma PiecesOfAdjacent()
    ensures RemoveDoubleQuotes("\"a\"\"b c\""[0..5]) == "\"a\"\"b"
    ensures RemoveDoubleQuotes("\"a\"\"b c\""[6..]) == "c\""
  {
    var s := "\"a\"\"b c\"";
    assert s[0..5] == "\"a\"\"b" && s[6..] == "c\"";
  }

  /** The command line `"a""b c"`, for words `a` to `c`. */
  function AdjacentLine(a: string, b: string, c: string): string {
    "\"" + a + "\"\"" + b + " " + c + "\""
  }

  /** In `"a""b c"` the space lies inside the second pair, so nothing splits. */
  lemma CutOfAdjacentShape(a: string, b: string, c: string)
    requires ' ' !in a && '"' !in a && ' ' !in b && '"' !in b && ' ' !in c && '"' !in c
    ensures Cut(AdjacentLine(a, b, c), false) == [AdjacentLine(a, b, c)]
  {
    var head := "\"" + a + "\"\"" + b;
    var tail := c + "\"";
    assert AdjacentLine(a, b, c) == head + (" " + tail);
    assert ' ' !in head;
    CutNoSpace(head, " " + tail, false);
    assert head == "\"" + (a + ("\"\"" + b));
    QuoteParityAppend("\"", a + ("\"\"" + b));
    QuoteParityAppend(a, "\"\"" + b);
    QuoteParityAppend("\"\"", b);
    NoQuoteParity(a);
    NoQuoteParity(b);
    assert QuoteParity(head);
    assert (" " + tail)[1..] == tail;
    assert Cut(" " + tail, true) == Prepend(" ", Cut(tail, true));
    CutNoSpace(tail, "", true);
    assert tail + "" == tail;
    PrependAssoc(head, " ", [tail]);
  }

  /** The intended split of `"a""b c"`, for any words `a` to `c`: one piece, its outer quotes removed. */
  lemma SplitSpecOfAdjacentShape(a: string, b: string, c: string)
    requires ' ' !in a && '"' !in a && ' ' !in b && '"' !in b && ' ' !in c && '"' !in c
    ensures SplitSpec(AdjacentLine(a, b, c)) == [a + "\"\"" + b + " " + c]
  {
    var line := AdjacentLine(a, b, c);
    var inner := a + "\"\"" + b + " " + c;
    CutOfAdjacentShape(a, b, c);
    assert line == "\"" + inner + "\"";
    assert line[1..|line| - 1] == inner;
    var none: seq<string> := [];
    assert [line][..0] == none;
    assert Unquoted([line]) == [RemoveDoubleQuotes(line)];
  }

  /** The intended split of `"a""b c"`. */
  lemma SplitSpecOfAdjacent()
    ensures SplitSpec("\"a\"\"b c\"") == ["a\"\"b c"]
  {
    assert ' ' !in "a" && '"' !in "a" && ' ' !in "b" && '"' !in "b" && ' ' !in "c" && '"' !in "c";
    SplitSpecOfAdjacentShape("a", "b", "c");
    assert AdjacentLine("a", "b", "c") == "\"a\"\"b c\"";
    assert "a" + "\"\"" + "b" + " " + "c" == "a\"\"b c";
  }

  /**
   * `assembleCommand`'s quoting: an argument holding a space is enclosed in
   * double quotes, any other is kept as it is.
   */
  function Wrap(arg: string): (r: string)
    ensures r == arg <==> ' ' !in arg
    ensures ' ' in arg ==> |r| == |arg| + 2 && r[0] == '"' && r[|r| - 1] == '"' && r[1..|r| - 1] == arg
  {
    if ' ' in arg then "\"" + arg + "\"" else arg
  }

  /** An argument without quotes is left as it is by unquoting. */
  lemma PlainUnquoted(arg: string)
    requires '"' !in arg
    ensures RemoveDoubleQuotes(arg) == arg
  {
  }

  /** Unquoting undoes the quoting for an argument without quotes of its own. */
  lemma UnwrapWrap(arg: string)
    requires '"' !in arg
    ensures RemoveDoubleQuotes(Wrap(arg)) == arg
  {
  }

  /** The arguments joined with single spaces. */
  function Join(args: seq<string>): string {
    if |args| == 0 then "" else if |args| == 1 then args[0] else args[0] + " " + Join(args[1..])
  }

  /** Each argument followed by a space: what `assembleCommand` builds before dropping the tail space. */
  function Trail(args: seq<string>): string {
    if args == [] then "" else args[0] + " " + Trail(args[1..])
  }

  lemma {:induction false} TrailAppend(args: seq<string>, arg: string)
    ensures Trail(args + [arg]) == Trail(args) + arg + " "
    decreases |args|
  {
    if args == [] {
      assert args + [arg] == [arg];
      assert Trail([arg][1..]) == "";
    } else {
      assert (args + [arg])[1..] == args[1..] + [arg];
      TrailAppend(args[1..], arg);
    }
  }

  /** Dropping the tail space of a non-empty trail leaves the join. */
  lemma {:induction false} TrailIsJoin(args: seq<string>)
    ensures args == [] <==> Trail(args) == ""
    ensures args != [] ==> Trail(args) == Join(args) + " "
    decreases |args|
  {
    if args != [] {
      TrailIsJoin(args[1..]);
      assert |Trail(args)| > 0;
    }
  }

  /** The indices `assembleCommand` keeps from `i` on: past an `ignoreArg` it skips that and `parametersRequired` more. */
  function KeptIndices(args: seq<string>, ignoreArg: string, parametersRequired: nat, i: nat): (ks: seq<nat>)
    ensures forall k :: 0 <= k < |ks| ==> i <= ks[k] < |args| && args[ks[k]] != ignoreArg
    ensures forall k, l :: 0 <= k < l < |ks| ==> ks[k] < ks[l]
    decreases |args| - i
  {
    if i >= |args| then []
    else if args[i] == ignoreArg then KeptIndices(args, ignoreArg, parametersRequired, i + parametersRequired + 1)
    else [i] + KeptIndices(args, ignoreArg, parametersRequired, i + 1)
  }

  /** When `ignoreArg` does not occur, every index is kept. */
  lemma {:induction false} KeptAllWithoutIgnored(args: seq<string>, ignoreArg: string, parametersRequired: nat, i: nat)
    requires ignoreArg !in args
    requires i <= |args|
    ensures KeptIndices(args, ignoreArg, parametersRequired, i) == seq(|args| - i, k => i + k)
    decreases |args| - i
  {
    if i < |args| {
      assert args[i] in args;
      KeptAllWithoutIgnored(args, ignoreArg, parametersRequired, i + 1);
    }
  }

  /** The kept arguments, quoted. */
  function WrappedAt(args: seq<string>, ks: seq<nat>): (r: seq<string>)
    requires forall k :: 0 <= k < |ks| ==> ks[k] < |args|
    ensures |r| == |ks|
  {
    seq(|ks|, k requires 0 <= k < |ks| => Wrap(args[ks[k]]))
  }

  /**
   * The state of the joining loop at index `i`: `done` holds the kept
   * indices below `i`, `result` their quoted arguments each followed by a
   * space, and `cur` (the array) has exactly those entries quoted.
   */
  ghost predicate AssembleInv(a: seq<string>, ignoreArg: string, parametersRequired: nat,
                              done: seq<nat>, i: nat, result: string, cur: seq<string>)
  {
    (forall k :: 0 <= k < |done| ==> done[k] < i && done[k] < |a|) &&
    KeptIndices(a, ignoreArg, parametersRequired, 0) == done + KeptIndices(a, ignoreArg, parametersRequired, i) &&
    result == Trail(WrappedAt(a, done)) &&
    cur == Marked(a, done)
  }

  /** `a` with the entries at the indices `ks` quoted. */
  function Marked(a: seq<string>, ks: seq<nat>): (r: seq<string>)
    ensures |r| == |a|
    ensures forall j :: 0 <= j < |a| ==> r[j] == if j in ks then Wrap(a[j]) else a[j]
  {
    seq(|a|, j requires 0 <= j < |a| => if j in ks then Wrap(a[j]) else a[j])
  }

  lemma AssembleInvInit(a: seq<string>, ignoreArg: string, parametersRequired: nat)
    ensures AssembleInv(a, ignoreArg, parametersRequired, [], 0, "", a)
  {
  }

  /**
   * One round of the joining loop at `i`: the entry there is untouched; an
   * `ignoreArg` is skipped with its `parametersRequired` parameters, any
   * other argument is quoted if need be and appended with a space.
   */
  lemma AssembleInvStep(a: seq<string>, ignoreArg: string, parametersRequired: nat,
                        done: seq<nat>, i: nat, result: string, cur: seq<string>)
    requires AssembleInv(a, ignoreArg, parametersRequired, done, i, result, cur)
    requires i < |a|
    ensures cur[i] == a[i]
    ensures a[i] == ignoreArg ==>
              AssembleInv(a, ignoreArg, parametersRequired, done, i + parametersRequired + 1, result, cur)
    ensures a[i] != ignoreArg ==>
              AssembleInv(a, ignoreArg, parametersRequired, done + [i], i + 1,
                          result + Wrap(a[i]) + " ", cur[i := Wrap(a[i])])
  {
    if a[i] != ignoreArg {
      KeptStep(a, ignoreArg, parametersRequired, done, i);
      TrailStep(a, done, i, result);
      MarkedAppend(a, done, i);
    }
  }

  lemma KeptStep(a: seq<string>, ignoreArg: string, parametersRequired: nat, done: seq<nat>, i: nat)
    requires i < |a| && a[i] != ignoreArg
    requires KeptIndices(a, ignoreArg, parametersRequired, 0) == done + KeptIndices(a, ignoreArg, parametersRequired, i)
    ensures KeptIndices(a, ignoreArg, parametersRequired, 0) == (done + [i]) + KeptIndices(a, ignoreArg, parametersRequired, i + 1)
  {
  }

  lemma TrailStep(a: seq<string>, done: seq<nat>, i: nat, result: string)
    requires i < |a|
    requires forall k :: 0 <= k < |done| ==> done[k] < |a|
    requires result == Trail(WrappedAt(a, done))
    ensures result + Wrap(a[i]) + " " == Trail(WrappedAt(a, done + [i]))
  {
    TrailAppend(WrappedAt(a, done), Wrap(a[i]));
    assert WrappedAt(a, done + [i]) == WrappedAt(a, done) + [Wrap(a[i])];
  }

  lemma MarkedAppend(a: seq<string>, done: seq<nat>, i: nat)
    requires i < |a|
    ensures Marked(a, done + [i]) == Marked(a, done)[i := Wrap(a[i])]
  {
  }

  /** Once the index passes the end, every kept index is done and the trail holds every kept argument. */
  lemma AssembleInvFinish(a: seq<string>, ignoreArg: string, parametersRequired: nat,
                          done: seq<nat>, i: nat, result: string, cur: seq<string>)
    requires AssembleInv(a, ignoreArg, parametersRequired, done, i, result, cur)
    requires i >= |a|
    ensures done == KeptIndices(a, ignoreArg, parametersRequired, 0)
    ensures result == "" ==> Join(WrappedAt(a, done)) == ""
    ensures result != "" ==> result[..|result| - 1] == Join(WrappedAt(a, done))
  {
    assert KeptIndices(a, ignoreArg, parametersRequired, i) == [];
    assert done + [] == done;
    TrailIsJoin(WrappedAt(a, done));
  }

  /**
   * `assembleCommand(argsArray, ignoreArg, parametersRequired)`: the kept
   * arguments, each quoted if it holds a space, joined with single spaces;
   * the quoting is also written back into `argsArray`.
   */
  method AssembleCommand(argsArray: array<string>, ignoreArg: string, parametersRequired: nat) returns (result: string)
    modifies argsArray
    ensures var ks := KeptIndices(old(argsArray[..]), ignoreArg, parametersRequired, 0);
            result == Join(WrappedAt(old(argsArray[..]), ks)) &&
            argsArray[..] == Marked(old(argsArray[..]), ks)
  {
    ghost var a := argsArray[..];
    ghost var done: seq<nat> := [];
    result := "";
    var i: nat := 0;
    AssembleInvInit(a, ignoreArg, parametersRequired);
    while i < argsArray.Length
      invariant AssembleInv(a, ignoreArg, parametersRequired, done, i, result, argsArray[..])
      decreases argsArray.Length - i
    {
      ghost var cur := argsArray[..];
      AssembleInvStep(a, ignoreArg, parametersRequired, done, i, result, cur);
      var arg := argsArray[i];
      if arg == ignoreArg {
        i := i + parametersRequired + 1;
      } else {
        if ' ' in arg {
          arg := "\"" + arg + "\"";
          argsArray[i] := arg;
        }
        assert argsArray[..] == cur[i := Wrap(a[i])];
        result := result + arg + " ";
        done := done + [i];
        i := i + 1;
      }
    }
    AssembleInvFinish(a, ignoreArg, parametersRequired, done, i, result, argsArray[..]);
    if result != "" {
      result := result[..|result| - 1];
    }
  }

  /** The whole argument list, quoted. */
  function WrapAll(args: seq<string>): (r: seq<string>)
    ensures |r| == |args|
  {
    seq(|args|, k requires 0 <= k < |args| => Wrap(args[k]))
  }

  /** A quoted argument without quotes of its own is one piece, whatever follows it. */
  lemma CutWrapped(a: string, tail: string)
    requires '"' !in a
    ensures Cut(Wrap(a) + tail, false) == Prepend(Wrap(a), Cut(tail, false))
  {
    if ' ' in a {
      // the opening quote, then `a` with its spaces protected, then the closing quote
      var t := "\"" + tail;
      var x := Cut(tail, false);
      assert Wrap(a) + tail == "\"" + (a + t);
      assert ("\"" + (a + t))[0] == '"' && ("\"" + (a + t))[1..] == a + t;
      assert Cut("\"" + (a + t), false) == Prepend("\"", Cut(a + t, true));
      assert t[0] == '"' && t[1..] == tail;
      CutProtectedRun(a, t);
      assert Cut(t, true) == Prepend("\"", x);
      PrependAssoc(a, "\"", x);
      PrependAssoc("\"", a + "\"", x);
      assert "\"" + (a + "\"") == Wrap(a);
    } else {
      CutNoSpace(a, tail, false);
      NoQuoteParity(a);
    }
  }

  /** Split into pieces, the quoted join gives back the quoted arguments. */
  lemma {:induction false} CutJoinWrapped(args: seq<string>)
    requires |args| >= 1
    requires forall k :: 0 <= k < |args| ==> '"' !in args[k]
    ensures Cut(Join(WrapAll(args)), false) == WrapAll(args)
    decreases |args|
  {
    var w := Wrap(args[0]);
    assert WrapAll(args)[0] == w;
    if |args| == 1 {
      CutWrapped(args[0], "");
      assert w + "" == w;
      assert Join(WrapAll(args)) == w;
    } else {
      var rest := Join(WrapAll(args[1..]));
      assert WrapAll(args)[1..] == WrapAll(args[1..]);
      assert Join(WrapAll(args)) == w + (" " + rest);
      CutWrapped(args[0], " " + rest);
      assert (" " + rest)[1..] == rest;
      assert Cut(" " + rest, false) == [""] + Cut(rest, false);
      CutJoinWrapped(args[1..]);
      assert w + "" == w;
      assert [w] + WrapAll(args[1..]) == WrapAll(args);
    }
  }

  /** A quoted join is empty only for no argument or one empty argument. */
  lemma {:induction false} JoinEmpty(args: seq<string>)
    ensures Join(WrapAll(args)) == "" ==> args == [] || args == [""]
  {
  }

  /**
   * Splitting what `assembleCommand` joined gives back the arguments, as long
   * as none holds a quote and the list is not the single empty argument.
   */
  lemma SplitAssembledRoundTrip(args: seq<string>)
    requires forall k :: 0 <= k < |args| ==> '"' !in args[k]
    requires args != [""]
    ensures SplitSpec(Join(WrapAll(args))) == args
  {
    JoinEmpty(args);
    if args != [] {
      CutJoinWrapped(args);
      forall k | 0 <= k < |args|
        ensures Unquoted(WrapAll(args))[k] == args[k]
      {
        UnquotedAt(WrapAll(args), k);
        UnwrapWrap(args[k]);
      }
    }
  }

  /** Without `ignoreArg` in the list, `assembleCommand` quotes and joins all of it, and splitting it gives it back. */
  lemma AssembleSplitRoundTrip(args: seq<string>, ignoreArg: string, parametersRequired: nat)
    requires ignoreArg !in args
    requires forall k :: 0 <= k < |args| ==> '"' !in args[k]
    requires args != [""]
    ensures SplitSpec(Join(WrappedAt(args, KeptIndices(args, ignoreArg, parametersRequired, 0)))) == args
  {
    KeptAllWithoutIgnored(args, ignoreArg, parametersRequired, 0);
    assert WrappedAt(args, KeptIndices(args, ignoreArg, parametersRequired, 0)) == WrapAll(args);
    SplitAssembledRoundTrip(args);
  }
}
