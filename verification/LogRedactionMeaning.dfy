/** What the passes of the log sanitizer show, told by how a text falls into parts: each part is shown as it is, or its
    secret is replaced by a mark. And what follows: a secret leaves no trace. */
module LogRedactionMeaning {
  import opened Basics
  import opened LogRedaction

  ghost predicate NoSpace(s: string) { forall i :: 0 <= i < |s| ==> !IsSpace(s[i]) }

  ghost predicate NoEol(s: string) { forall i :: 0 <= i < |s| ==> !IsEol(s[i]) }

  ghost predicate EndsWord(rest: string) { rest == "" || IsSpace(rest[0]) }

  ghost predicate EndsLine(rest: string) { rest == "" || IsEol(rest[0]) }

  // ----- Words and lines -----

  lemma OneMoreChar(s: string, w: string, rest: string)
    requires s != "" && s[1..] == w + rest
    ensures s == ([s[0]] + w) + rest
  {
  }

  lemma {:induction false} DropWordThrough(word: string, rest: string)
    requires NoSpace(word) && EndsWord(rest)
    ensures DropWord(word + rest) == rest
  {
    if word == "" {
      assert word + rest == rest;
    } else {
      assert (word + rest)[1..] == word[1..] + rest;
      DropWordThrough(word[1..], rest);
    }
  }

  lemma {:induction false} WordAndRest(s: string) returns (word: string)
    ensures NoSpace(word) && EndsWord(DropWord(s)) && s == word + DropWord(s)
  {
    if s == "" || IsSpace(s[0]) {
      word := "";
    } else {
      var w := WordAndRest(s[1..]);
      word := [s[0]] + w;
      OneMoreChar(s, w, DropWord(s[1..]));
    }
  }

  lemma {:induction false} DropLineThrough(value: string, rest: string)
    requires NoEol(value) && EndsLine(rest)
    ensures DropLine(value + rest) == rest
  {
    if value == "" {
      assert value + rest == rest;
    } else {
      assert (value + rest)[1..] == value[1..] + rest;
      DropLineThrough(value[1..], rest);
    }
  }

  lemma {:induction false} LineAndRest(s: string) returns (value: string)
    ensures NoEol(value) && EndsLine(DropLine(s)) && s == value + DropLine(s)
  {
    if s == "" || IsEol(s[0]) {
      value := "";
    } else {
      var v := LineAndRest(s[1..]);
      value := [s[0]] + v;
      OneMoreChar(s, v, DropLine(s[1..]));
    }
  }

  lemma StartsWithLonger(s: string, p: string, rest: string)
    requires StartsWith(s, p)
    ensures StartsWith(s + rest, p) && (s + rest)[|p|..] == s[|p|..] + rest
  {
  }

  // ----- The two scrubbing passes, by parts -----

  /** A character that is shown, or a name with a secret after it: the key prefix with the word it begins, or a header
      name with the rest of its line. */
  datatype Part = Plain(c: char) | Secret(name: string, value: string)

  function TextOf(part: Part): string { if part.Plain? then [part.c] else part.name + part.value }

  function Text(parts: seq<Part>): string {
    if parts == [] then "" else TextOf(parts[0]) + Text(parts[1..])
  }

  lemma OnePartMore(parts: seq<Part>, s: string, n: nat, value: string, rest: string)
    requires n <= |s| && s[n..] == value + rest
    requires parts != [] && parts[0] == Secret(s[..n], value) && Text(parts[1..]) == rest
    ensures Text(parts) == s
  {
    assert s == s[..n] + s[n..];
    assert (s[..n] + value) + rest == s[..n] + (value + rest);
  }

  /** The key pass shows a mark for the key. */
  function KeysShown(parts: seq<Part>, mark: string): string {
    if parts == [] then "" else (if parts[0].Plain? then [parts[0].c] else mark) + KeysShown(parts[1..], mark)
  }

  /** The header pass shows the name, and a mark for the value. */
  function HeadersShown(parts: seq<Part>, mark: string): string {
    if parts == [] then ""
    else (if parts[0].Plain? then [parts[0].c] else parts[0].name + mark) + HeadersShown(parts[1..], mark)
  }

  /** A character stands for itself only where no key begins, and a key goes on to white space or the end. */
  ghost predicate KeyParts(parts: seq<Part>) {
    parts == [] ||
    (&& KeyParts(parts[1..])
     && match parts[0]
        case Plain(_) => !StartsWith(Text(parts), KEY_PREFIX)
        case Secret(name, value) =>
          && |name| == |KEY_PREFIX| && StartsWith(name, KEY_PREFIX)
          && NoSpace(value) && EndsWord(Text(parts[1..])))
  }

  /** Every text falls into such parts. */
  lemma {:induction false} KeyPartsOf(s: string) returns (parts: seq<Part>)
    ensures KeyParts(parts) && Text(parts) == s
    decreases |s|
  {
    if s == "" {
      parts := [];
    } else if StartsWith(s, KEY_PREFIX) {
      var n := |KEY_PREFIX|;
      var word := WordAndRest(s[n..]);
      var rest := KeyPartsOf(DropWord(s[n..]));
      parts := [Secret(s[..n], word)] + rest;
      assert parts[1..] == rest;
      OnePartMore(parts, s, n, word, DropWord(s[n..]));
    } else {
      var rest := KeyPartsOf(s[1..]);
      parts := [Plain(s[0])] + rest;
      assert parts[1..] == rest && s == [s[0]] + s[1..];
    }
  }

  /** And into whichever it falls, the key pass shows exactly them: all of every key is gone, and all else is kept. */
  lemma {:induction false} KeyPassShows(parts: seq<Part>)
    requires KeyParts(parts)
    ensures KeysRedacted(Text(parts)) == KeysShown(parts, KEY_MARK)
  {
    if parts != [] {
      var rest := Text(parts[1..]);
      KeyPassShows(parts[1..]);
      match parts[0]
      case Plain(c) => assert Text(parts)[1..] == rest;
      case Secret(name, value) =>
        assert (name + value) + rest == name + (value + rest);
        StartsWithLonger(name, KEY_PREFIX, value + rest);
        assert name[|KEY_PREFIX|..] + (value + rest) == value + rest;
        DropWordThrough(value, rest);
    }
  }

  predicate Named(s: string) { StartsWith(s, AUTH_NAME) || StartsWith(s, API_KEY_NAME) }

  /** A character stands for itself only where no header name begins, and a header goes on to the end of its line. */
  ghost predicate HeaderParts(parts: seq<Part>) {
    parts == [] ||
    (&& HeaderParts(parts[1..])
     && match parts[0]
        case Plain(_) => !Named(Text(parts))
        case Secret(name, value) => NameHere(name) && NoEol(value) && EndsLine(Text(parts[1..])))
  }

  /** One of the two header names, in any letter case. */
  predicate NameHere(name: string) {
    || (|name| == |AUTH_NAME| && StartsWith(name, AUTH_NAME))
    || (|name| == |API_KEY_NAME| && StartsWith(name, API_KEY_NAME))
  }

  lemma NameLengthOfTwo(s: string, p: string, q: string)
    ensures NameLength(s, [p, q]) == if StartsWith(s, p) then |p| else if StartsWith(s, q) then |q| else 0
  {
    var last, none: seq<string> := [q], [];
    assert last[1..] == none && [p, q][1..] == last;
    assert NameLength(s, none) == 0;
  }

  lemma NameLengthHere(s: string)
    ensures NameLength(s, HEADER_NAMES) ==
      if StartsWith(s, AUTH_NAME) then |AUTH_NAME| else if StartsWith(s, API_KEY_NAME) then |API_KEY_NAME| else 0
  {
    NameLengthOfTwo(s, AUTH_NAME, API_KEY_NAME);
  }

  lemma NamesDiffer(s: string)
    ensures !StartsWith(s, AUTH_NAME) || !StartsWith(s, API_KEY_NAME)
  {
    assert AUTH_NAME[0] == 'a' && API_KEY_NAME[0] == 'x';
  }

  lemma NameLengthWith(name: string, rest: string)
    requires NameHere(name)
    ensures NameLength(name + rest, HEADER_NAMES) == |name| > 0
  {
    NameLengthHere(name + rest);
    NamesDiffer(name + rest);
    if StartsWith(name, AUTH_NAME) && |name| == |AUTH_NAME| {
      StartsWithLonger(name, AUTH_NAME, rest);
    } else {
      StartsWithLonger(name, API_KEY_NAME, rest);
    }
  }

  lemma NameAtStart(s: string)
    ensures NameLength(s, HEADER_NAMES) > 0 <==> Named(s)
    ensures NameLength(s, HEADER_NAMES) > 0 ==> NameHere(s[..NameLength(s, HEADER_NAMES)])
  {
    NameLengthHere(s);
  }

  lemma {:induction false} HeaderPartsOf(s: string) returns (parts: seq<Part>)
    ensures HeaderParts(parts) && Text(parts) == s
    decreases |s|
  {
    var n := NameLength(s, HEADER_NAMES);
    NameAtStart(s);
    if s == "" {
      parts := [];
    } else if n > 0 {
      var value := LineAndRest(s[n..]);
      var rest := HeaderPartsOf(DropLine(s[n..]));
      parts := [Secret(s[..n], value)] + rest;
      assert parts[1..] == rest;
      OnePartMore(parts, s, n, value, DropLine(s[n..]));
    } else {
      var rest := HeaderPartsOf(s[1..]);
      parts := [Plain(s[0])] + rest;
      assert parts[1..] == rest && s == [s[0]] + s[1..];
    }
  }

  /** The header pass shows every name and the mark for its value, and keeps all else. */
  lemma {:induction false} HeaderPassShows(parts: seq<Part>)
    requires HeaderParts(parts)
    ensures HeadersRedacted(Text(parts), HEADER_NAMES, HEADER_MARK) == HeadersShown(parts, HEADER_MARK)
  {
    if parts != [] {
      var rest := Text(parts[1..]);
      HeaderPassShows(parts[1..]);
      match parts[0]
      case Plain(c) => assert Text(parts)[1..] == rest; NameLengthHere(Text(parts));
      case Secret(name, value) => HeaderShown(name, value, rest);
    }
  }

  lemma HeaderShown(name: string, value: string, rest: string)
    requires NameHere(name) && NoEol(value) && EndsLine(rest)
    ensures HeadersRedacted((name + value) + rest, HEADER_NAMES, HEADER_MARK) ==
      (name + HEADER_MARK) + HeadersRedacted(rest, HEADER_NAMES, HEADER_MARK)
  {
    var s := name + (value + rest);
    assert (name + value) + rest == s && s[..|name|] == name && s[|name|..] == value + rest;
    NameLengthWith(name, value + rest);
    DropLineThrough(value, rest);
  }

  // ----- The heuristic pass, by pieces -----

  /** A run of letters, digits, `-` and `_`, and the other character that ends it. */
  datatype Piece = Piece(run: string, c: char)

  ghost predicate IsRun(s: string) { forall i :: 0 <= i < |s| ==> IsRunChar(s[i]) }

  ghost predicate Pieces(pieces: seq<Piece>) {
    forall i :: 0 <= i < |pieces| ==> IsRun(pieces[i].run) && !IsRunChar(pieces[i].c)
  }

  function PiecesText(pieces: seq<Piece>, tail: string): string {
    if pieces == [] then tail else pieces[0].run + ([pieces[0].c] + PiecesText(pieces[1..], tail))
  }

  /** A run of thirty-two or more gives way to the mark. */
  function RunShown(run: string, m: Marks): string { if |run| < 32 then run else m.run }

  function PiecesShown(pieces: seq<Piece>, m: Marks): string {
    if pieces == [] then ""
    else (RunShown(pieces[0].run, m) + [pieces[0].c]) + PiecesShown(pieces[1..], m)
  }

  lemma {:induction false} PiecesOf(s: string) returns (pieces: seq<Piece>, tail: string)
    ensures Pieces(pieces) && IsRun(tail) && PiecesText(pieces, tail) == s
    decreases |s|
  {
    var run, rest := RunAndRest(s);
    if rest == "" {
      pieces, tail := [], s;
    } else {
      var more;
      more, tail := PiecesOf(rest[1..]);
      pieces := [Piece(run, rest[0])] + more;
      assert pieces[1..] == more && rest == [rest[0]] + rest[1..];
    }
  }

  lemma {:induction false} RunAndRest(s: string) returns (run: string, rest: string)
    ensures s == run + rest && IsRun(run) && (rest == "" || !IsRunChar(rest[0]))
  {
    if s == "" || !IsRunChar(s[0]) {
      run, rest := "", s;
    } else {
      var r;
      r, rest := RunAndRest(s[1..]);
      run := [s[0]] + r;
      OneMoreChar(s, r, rest);
    }
  }

  lemma {:induction false} RunGathers(run: string, pending: string, t: string, spent: nat, m: Marks)
    requires IsRun(run)
    ensures RunsRedacted(run + t, pending, spent, m) == RunsRedacted(t, pending + run, spent, m)
  {
    if run == "" {
      assert run + t == t && pending + run == pending;
    } else {
      assert (run + t)[1..] == run[1..] + t;
      RunGathers(run[1..], pending + [run[0]], t, spent, m);
      assert (pending + [run[0]]) + run[1..] == pending + run;
    }
  }

  lemma PiecePasses(piece: Piece, rest: string, spent: nat, m: Marks)
    requires IsRun(piece.run) && !IsRunChar(piece.c)
    ensures
      var shown := RunShown(piece.run, m) + [piece.c];
      RunsRedacted(piece.run + ([piece.c] + rest), "", spent, m) == shown + AfterPiece(rest, spent + Bytes(shown), m)
  {
    RunGathers(piece.run, "", [piece.c] + rest, spent, m);
    assert "" + piece.run == piece.run && ([piece.c] + rest)[1..] == rest;
  }

  /** How many bytes the first `k` pieces show. */
  function BytesShown(pieces: seq<Piece>, k: nat, m: Marks): nat
    requires k <= |pieces|
  {
    Bytes(PiecesShown(pieces[..k], m))
  }

  lemma FirstShown(pieces: seq<Piece>, k: nat, m: Marks)
    requires 0 < k <= |pieces|
    ensures BytesShown(pieces, k, m) ==
      Bytes(RunShown(pieces[0].run, m) + [pieces[0].c]) + BytesShown(pieces[1..], k - 1, m)
  {
    assert pieces[..k][0] == pieces[0] && pieces[..k][1..] == pieces[1..][..k - 1];
    BytesConcat(RunShown(pieces[0].run, m) + [pieces[0].c], PiecesShown(pieces[1..][..k - 1], m));
  }

  /** After none of the first `n - 1` pieces are two hundred bytes spent. */
  ghost predicate Unspent(pieces: seq<Piece>, n: nat, spent: nat, m: Marks)
    requires n <= |pieces| + 1
  {
    forall k :: 0 < k < n ==> spent + BytesShown(pieces, k, m) < 200
  }

  lemma UnspentLater(pieces: seq<Piece>, n: nat, spent: nat, m: Marks)
    requires pieces != [] && 0 < n <= |pieces| + 1 && Unspent(pieces, n, spent, m)
    ensures Unspent(pieces[1..], n - 1, spent + Bytes(RunShown(pieces[0].run, m) + [pieces[0].c]), m)
    ensures n > 1 ==> spent + Bytes(RunShown(pieces[0].run, m) + [pieces[0].c]) < 200
  {
    FirstShown(pieces, 1, m);
    forall k | 0 < k < n - 1
      ensures spent + Bytes(RunShown(pieces[0].run, m) + [pieces[0].c]) + BytesShown(pieces[1..], k, m) < 200
    {
      FirstShown(pieces, k + 1, m);
    }
  }

  /** While two hundred bytes are not spent, each piece is shown, and what is left at the end. */
  lemma {:induction false} RunPassShowsAll(pieces: seq<Piece>, tail: string, spent: nat, m: Marks)
    requires Pieces(pieces) && IsRun(tail) && Unspent(pieces, |pieces| + 1, spent, m)
    ensures RunsRedacted(PiecesText(pieces, tail), "", spent, m) == PiecesShown(pieces, m) + RunShown(tail, m)
  {
    if pieces == [] {
      RunGathers(tail, "", "", spent, m);
      assert tail + "" == tail && "" + tail == tail;
    } else {
      var first, rest := RunShown(pieces[0].run, m) + [pieces[0].c], PiecesText(pieces[1..], tail);
      UnspentLater(pieces, |pieces| + 1, spent, m);
      PiecePasses(pieces[0], rest, spent, m);
      RunPassShowsAll(pieces[1..], tail, spent + Bytes(first), m);
      assert first + (PiecesShown(pieces[1..], m) + RunShown(tail, m)) ==
        (first + PiecesShown(pieces[1..], m)) + RunShown(tail, m);
    }
  }

  lemma FirstPieceCuts(piece: Piece, rest: string, spent: nat, m: Marks)
    requires IsRun(piece.run) && !IsRunChar(piece.c)
    requires spent + Bytes(RunShown(piece.run, m) + [piece.c]) >= 200
    ensures RunsRedacted(piece.run + ([piece.c] + rest), "", spent, m) == (RunShown(piece.run, m) + [piece.c]) + m.stop
  {
    PiecePasses(piece, rest, spent, m);
  }

  lemma PiecesShownFrom(pieces: seq<Piece>, n: nat, m: Marks)
    requires 0 < n <= |pieces|
    ensures PiecesShown(pieces[..n], m) ==
      (RunShown(pieces[0].run, m) + [pieces[0].c]) + PiecesShown(pieces[1..][..n - 1], m)
  {
    assert pieces[..n][0] == pieces[0] && pieces[..n][1..] == pieces[1..][..n - 1];
  }

  lemma LaterPieceCuts(piece: Piece, rest: string, spent: nat, later: string, m: Marks)
    requires IsRun(piece.run) && !IsRunChar(piece.c)
    requires var bytes := spent + Bytes(RunShown(piece.run, m) + [piece.c]);
      bytes < 200 && RunsRedacted(rest, "", bytes, m) == later + m.stop
    ensures RunsRedacted(piece.run + ([piece.c] + rest), "", spent, m) ==
      ((RunShown(piece.run, m) + [piece.c]) + later) + m.stop
  {
    PiecePasses(piece, rest, spent, m);
    var first := RunShown(piece.run, m) + [piece.c];
    assert first + (later + m.stop) == (first + later) + m.stop;
  }

  /** The first piece with which two hundred bytes are spent is the last that is shown. */
  lemma {:induction false} RunPassCuts(pieces: seq<Piece>, tail: string, spent: nat, n: nat, m: Marks)
    requires Pieces(pieces) && 0 < n <= |pieces| && Unspent(pieces, n, spent, m)
    requires spent + BytesShown(pieces, n, m) >= 200
    ensures RunsRedacted(PiecesText(pieces, tail), "", spent, m) == PiecesShown(pieces[..n], m) + m.stop
  {
    var first, rest := RunShown(pieces[0].run, m) + [pieces[0].c], PiecesText(pieces[1..], tail);
    FirstShown(pieces, n, m);
    PiecesShownFrom(pieces, n, m);
    UnspentLater(pieces, n, spent, m);
    var later := PiecesShown(pieces[1..][..n - 1], m);
    if n == 1 {
      assert later == "" && first + later == first && BytesShown(pieces[1..], 0, m) == 0;
      FirstPieceCuts(pieces[0], rest, spent, m);
    } else {
      RunPassCuts(pieces[1..], tail, spent + Bytes(first), n - 1, m);
      LaterPieceCuts(pieces[0], rest, spent, later, m);
    }
  }

  // ----- A key leaves no trace -----

  lemma {:induction false} DropWordPast(b: string, p: string, w: string, rest: string)
    requires NoSpace(p) && NoSpace(w) && EndsWord(rest)
    ensures
      var s := b + (p + (w + rest));
      if NoSpace(b) then DropWord(s) == rest
      else DropWord(b) != "" && DropWord(s) == DropWord(b) + (p + (w + rest))
  {
    var t := p + (w + rest);
    if b == "" {
      assert b + t == (p + w) + rest;
      DropWordThrough(p + w, rest);
    } else if IsSpace(b[0]) {
      assert (b + t)[0] == b[0];
    } else {
      assert (b + t)[1..] == b[1..] + t;
      DropWordPast(b[1..], p, w, rest);
      assert NoSpace(b) <==> NoSpace(b[1..]) by { assert b == [b[0]] + b[1..]; }
    }
  }

  /** No second key begins inside a prefix. */
  lemma NoKeyAcross(a: string, p: string, t: string)
    requires 0 < |a| < |KEY_PREFIX| && |p| == |KEY_PREFIX| && StartsWith(p, KEY_PREFIX)
    ensures !StartsWith(a + (p + t), KEY_PREFIX)
  {
    assert (a + (p + t))[|a|] == p[0] && Lower(p[0]) == KEY_PREFIX[0] != KEY_PREFIX[|a|];
  }

  lemma StartsAlike(a: string, p: string, t1: string, t2: string)
    requires |p| == |KEY_PREFIX|
    ensures StartsWith(a + (p + t1), KEY_PREFIX) <==> StartsWith(a + (p + t2), KEY_PREFIX)
  {
    assert forall k :: 0 <= k < |KEY_PREFIX| ==> (a + (p + t1))[k] == (a + (p + t2))[k];
  }

  lemma KeyAtPrefix(p: string, w: string, rest: string)
    requires |p| == |KEY_PREFIX| && StartsWith(p, KEY_PREFIX) && NoSpace(w) && EndsWord(rest)
    ensures KeysRedacted(p + (w + rest)) == KEY_MARK + KeysRedacted(rest)
  {
    var s := p + (w + rest);
    assert s[|KEY_PREFIX|..] == w + rest;
    StartsWithLonger(p, KEY_PREFIX, w + rest);
    DropWordThrough(w, rest);
  }

  lemma NoKeyAtFirst(a: string, t: string)
    requires a != "" && !StartsWith(a + t, KEY_PREFIX)
    ensures KeysRedacted(a + t) == [a[0]] + KeysRedacted(a[1..] + t)
  {
    assert (a + t)[1..] == a[1..] + t;
  }

  /** A key that begins in `a` takes all of the later one with it, or ends before it. */
  lemma KeyBefore(a: string, p: string, w: string, rest: string)
    requires |p| == |KEY_PREFIX| && StartsWith(p, KEY_PREFIX) && NoSpace(p) && NoSpace(w) && EndsWord(rest)
    requires a != "" && StartsWith(a + (p + (w + rest)), KEY_PREFIX)
    ensures |a| >= |KEY_PREFIX|
    ensures
      var b := a[|KEY_PREFIX|..];
      KeysRedacted(a + (p + (w + rest))) ==
        KEY_MARK + KeysRedacted(if NoSpace(b) then rest else DropWord(b) + (p + (w + rest)))
  {
    var n, t := |KEY_PREFIX|, p + (w + rest);
    if |a| < n { NoKeyAcross(a, p, w + rest); }
    assert (a + t)[n..] == a[n..] + t;
    DropWordPast(a[n..], p, w, rest);
  }

  /** What is shown does not depend on what follows a key prefix up to the next white space. */
  lemma {:induction false} KeyPassForgets(a: string, p: string, w1: string, w2: string, rest: string)
    requires |p| == |KEY_PREFIX| && StartsWith(p, KEY_PREFIX) && NoSpace(p)
    requires NoSpace(w1) && NoSpace(w2) && EndsWord(rest)
    ensures KeysRedacted(a + (p + (w1 + rest))) == KeysRedacted(a + (p + (w2 + rest)))
    decreases |a|
  {
    var t1, t2 := p + (w1 + rest), p + (w2 + rest);
    StartsAlike(a, p, w1 + rest, w2 + rest);
    if a == "" {
      assert a + t1 == t1 && a + t2 == t2;
      KeyAtPrefix(p, w1, rest);
      KeyAtPrefix(p, w2, rest);
    } else if StartsWith(a + t1, KEY_PREFIX) {
      KeyBefore(a, p, w1, rest);
      KeyBefore(a, p, w2, rest);
      var b := a[|KEY_PREFIX|..];
      if !NoSpace(b) { KeyPassForgets(DropWord(b), p, w1, w2, rest); }
    } else {
      NoKeyAtFirst(a, t1);
      NoKeyAtFirst(a, t2);
      KeyPassForgets(a[1..], p, w1, w2, rest);
    }
  }

  /** The log line of a body is the same whatever secret follows a key prefix in it. */
  lemma SecretLeavesNoTrace(a: string, p: string, w1: string, w2: string, rest: string)
    requires |p| == |KEY_PREFIX| && StartsWith(p, KEY_PREFIX)
    requires NoSpace(w1) && NoSpace(w2) && EndsWord(rest)
    ensures Sanitized(a + (p + (w1 + rest))) == Sanitized(a + (p + (w2 + rest)))
  {
    forall i | 0 <= i < |p| ensures !IsSpace(p[i]) { PrefixLetters(p, i); }
    KeyPassForgets(a, p, w1, w2, rest);
  }

  lemma PrefixLetters(p: string, i: nat)
    requires |p| == |KEY_PREFIX| && StartsWith(p, KEY_PREFIX) && i < |p|
    ensures !IsSpace(p[i])
  {
    assert Lower(p[i]) == KEY_PREFIX[i];
    assert KEY_PREFIX == ['s', 'k', '-', 'a', 'n', 't', '-'];
  }
}
