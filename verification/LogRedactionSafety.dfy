/** What no redacted log line can contain, for every response body. */
module LogRedactionSafety {
  import opened Basics
  import opened LogRedaction

  // ----- No API key survives -----

  lemma KeyLetters()
    ensures KEY_PREFIX == ['s', 'k', '-', 'a', 'n', 't', '-']
    ensures forall k :: 0 <= k < |KEY_PREFIX| ==>
      IsRunChar(KEY_PREFIX[k]) && KEY_PREFIX[k] != '[' && KEY_PREFIX[k] != ' '
  {
  }

  /** No replacement text contains the letter every key begins with. */
  lemma MarksHaveNoS()
    ensures forall k :: 0 <= k < |KEY_MARK| ==> Lower(KEY_MARK[k]) != 's'
    ensures forall k :: 0 <= k < |HEADER_MARK| ==> Lower(HEADER_MARK[k]) != 's'
    ensures forall k :: 0 <= k < |RUN_MARK| ==> Lower(RUN_MARK[k]) != 's'
    ensures forall k :: 0 <= k < |ELLIPSIS| ==> Lower(ELLIPSIS[k]) != 's'
  {
  }

  lemma NoKeyWithoutS(s: string, i: nat)
    requires i < |s| && Lower(s[i]) != 's'
    ensures !Occurs(s, KEY_PREFIX, i)
  {
    KeyLetters();
    assert s[i..][0] == s[i];
  }

  /** A key occurrence has only run characters in it. */
  lemma NoKeyAcross(s: string, i: nat, k: nat)
    requires i <= k < i + 7 && k < |s| && !IsRunChar(s[k])
    ensures !Occurs(s, KEY_PREFIX, i)
  {
    KeyLetters();
    assert s[i..][k - i] == s[k];
  }

  lemma KeyInPart(s: string, t: string, i: nat, j: nat)
    requires i + 7 <= |s| && j + 7 <= |t| && s[i..i + 7] == t[j..j + 7]
    ensures Occurs(s, KEY_PREFIX, i) <==> Occurs(t, KEY_PREFIX, j)
  {
    KeyLetters();
    forall k | 0 <= k < 7 ensures s[i..][k] == t[j..][k] {
      assert s[i..i + 7][k] == t[j..j + 7][k];
    }
  }

  lemma {:induction false} KeyPassPrefix(s: string, p: string)
    requires forall k :: 0 <= k < |p| ==> p[k] != '['
    ensures StartsWith(KeysRedacted(s), p) ==> StartsWith(s, p)
    decreases |p|
  {
    if p != "" && s != "" {
      var out := KeysRedacted(s);
      if StartsWith(s, KEY_PREFIX) {
        assert out[0] == KEY_MARK[0];
      } else if StartsWith(out, p) {
        assert Lower(out[0]) == p[0];
        assert out[1..] == KeysRedacted(s[1..]);
        KeyPassPrefix(s[1..], p[1..]);
        assert forall k :: 0 < k < |p| ==> s[k] == s[1..][k - 1] && p[k] == p[1..][k - 1];
      }
    }
  }

  lemma {:induction false} KeyPassLeavesNoKey(s: string, i: nat)
    ensures !Occurs(KeysRedacted(s), KEY_PREFIX, i)
    decreases |s|
  {
    MarksHaveNoS();
    KeyLetters();
    var out := KeysRedacted(s);
    if s != "" && i < |out| {
      if StartsWith(s, KEY_PREFIX) {
        var tail := DropWord(s[|KEY_PREFIX|..]);
        assert out == KEY_MARK + KeysRedacted(tail);
        if i < |KEY_MARK| {
          NoKeyWithoutS(out, i);
        } else {
          assert out[i..] == KeysRedacted(tail)[i - |KEY_MARK|..];
          KeyPassLeavesNoKey(tail, i - |KEY_MARK|);
        }
      } else if i == 0 {
        assert out[0..] == out;
        KeyPassPrefix(s, KEY_PREFIX);
      } else {
        assert out[i..] == KeysRedacted(s[1..])[i - 1..];
        KeyPassLeavesNoKey(s[1..], i - 1);
      }
    }
  }

  lemma {:induction false} DropLineIsSuffix(s: string)
    ensures DropLine(s) == s[|s| - |DropLine(s)|..]
  {
    if s != "" && !IsEol(s[0]) {
      DropLineIsSuffix(s[1..]);
    }
  }

  lemma SuffixHasNoKey(s: string, k: nat)
    requires k <= |s| && !Contains(s, KEY_PREFIX)
    ensures !Contains(s[k..], KEY_PREFIX)
  {
    forall i | 0 <= i <= |s[k..]| ensures !Occurs(s[k..], KEY_PREFIX, i) {
      assert s[k..][i..] == s[k + i..] && !Occurs(s, KEY_PREFIX, k + i);
    }
  }

  /** What the key argument needs of a replacement text: it begins with a blank and has no letter `s`. */
  predicate SafeMark(mark: string) {
    mark != "" && mark[0] == ' ' && forall k :: 0 <= k < |mark| ==> Lower(mark[k]) != 's'
  }

  lemma {:induction false} HeaderPassPrefix(s: string, names: seq<string>, mark: string, p: string)
    requires SafeMark(mark) && forall k :: 0 <= k < |p| ==> p[k] != ' '
    ensures StartsWith(HeadersRedacted(s, names, mark), p) ==> StartsWith(s, p)
    decreases |p|
  {
    if p != "" && s != "" {
      var out := HeadersRedacted(s, names, mark);
      var n := NameLength(s, names);
      if n > 0 {
        assert out[..n] == s[..n];
        assert forall k :: 0 <= k < n ==> out[k] == out[..n][k] == s[..n][k] == s[k];
        if n < |p| { assert out[n] == mark[0]; }
      } else if StartsWith(out, p) {
        assert Lower(out[0]) == p[0];
        assert out[1..] == HeadersRedacted(s[1..], names, mark);
        HeaderPassPrefix(s[1..], names, mark, p[1..]);
        assert forall k :: 0 < k < |p| ==> s[k] == s[1..][k - 1] && p[k] == p[1..][k - 1];
      }
    }
  }

  lemma {:induction false} HeaderPassLeavesNoKey(s: string, names: seq<string>, mark: string, i: nat)
    requires SafeMark(mark) && !Contains(s, KEY_PREFIX)
    ensures !Occurs(HeadersRedacted(s, names, mark), KEY_PREFIX, i)
    decreases |s|
  {
    KeyLetters();
    var out := HeadersRedacted(s, names, mark);
    if s != "" && i < |out| {
      var n := NameLength(s, names);
      if n > 0 {
        var tail := DropLine(s[n..]);
        assert out == s[..n] + mark + HeadersRedacted(tail, names, mark);
        if i + 7 <= n {
          assert out[i..i + 7] == s[i..i + 7];
          KeyInPart(out, s, i, i);
        } else if i < n {
          assert out[n] == mark[0];
          NoKeyAcross(out, i, n);
        } else if i < n + |mark| {
          assert out[i] == mark[i - n];
          NoKeyWithoutS(out, i);
        } else {
          var past := n + |mark|;
          assert out[i..] == HeadersRedacted(tail, names, mark)[i - past..];
          SuffixHasNoKey(s, n);
          DropLineIsSuffix(s[n..]);
          SuffixHasNoKey(s[n..], |s[n..]| - |tail|);
          HeaderPassLeavesNoKey(tail, names, mark, i - past);
        }
      } else if i == 0 {
        assert out[0..] == out && s[0..] == s;
        assert !Occurs(s, KEY_PREFIX, 0);
        HeaderPassPrefix(s, names, mark, KEY_PREFIX);
      } else {
        assert out[i..] == HeadersRedacted(s[1..], names, mark)[i - 1..];
        SuffixHasNoKey(s, 1);
        HeaderPassLeavesNoKey(s[1..], names, mark, i - 1);
      }
    }
  }

  /** What the arguments below need of the texts that the heuristic pass inserts. */
  predicate GoodMarks(m: Marks) {
    && 2 <= |m.run| < RUN_LIMIT && |m.stop| <= 3 && IsAscii(m.run) && IsAscii(m.stop)
    && !IsRunChar(m.run[|m.run| - 1])
    && (forall k :: 0 <= k < |m.run| ==> Lower(m.run[k]) != 's' && m.run[k] != ':')
    && (forall k :: 0 <= k < |m.stop| ==> Lower(m.stop[k]) != 's' && m.stop[k] != ':' && !IsRunChar(m.stop[k]))
  }

  lemma ProgramMarksAreGood()
    ensures GoodMarks(RUN_MARKS) && SafeMark(HEADER_MARK) && IsAscii(HEADER_MARK)
  {
    MarksHaveNoS();
    assert RUN_MARK == ['[', 'r', 'e', 'd', 'a', 'c', 't', 'e', 'd', ']'];
    assert ELLIPSIS == ['.', '.', '.'];
  }

  lemma NoKeyInTail(piece: string, tail: string, i: nat)
    requires i >= |piece| && !Occurs(tail, KEY_PREFIX, i - |piece|)
    ensures !Occurs(piece + tail, KEY_PREFIX, i)
  {
    if i <= |piece + tail| {
      assert (piece + tail)[i..] == tail[i - |piece|..];
    }
  }

  lemma {:induction false} RunPassLeavesNoKey(s: string, run: string, spent: nat, m: Marks, i: nat)
    requires GoodMarks(m) && !Contains(run + s, KEY_PREFIX)
    ensures !Occurs(RunsRedacted(s, run, spent, m), KEY_PREFIX, i)
    decreases |s|, 0
  {
    if s != "" && IsRunChar(s[0]) {
      assert (run + [s[0]]) + s[1..] == run + s;
      RunPassLeavesNoKey(s[1..], run + [s[0]], spent, m, i);
    } else if i < |Flush(run, m)| {
      NoKeyInFlushed(s, run, spent, m, i);
    } else if s != "" && i == |Flush(run, m)| {
      NoKeyAcross(RunsRedacted(s, run, spent, m), i, i);
    } else if s != "" {
      var piece := Flush(run, m) + [s[0]];
      SuffixHasNoKey(run + s, |run| + 1);
      assert (run + s)[|run| + 1..] == "" + s[1..];
      NoKeyAfterPiece(s[1..], spent + Bytes(piece), m, i - |piece|);
      NoKeyInTail(piece, AfterPiece(s[1..], spent + Bytes(piece), m), i);
    }
  }

  lemma NoKeyAfterPiece(rest: string, spent: nat, m: Marks, i: nat)
    requires GoodMarks(m) && !Contains("" + rest, KEY_PREFIX)
    ensures !Occurs(AfterPiece(rest, spent, m), KEY_PREFIX, i)
    decreases |rest|, 1
  {
    if spent < OUTPUT_BUDGET {
      RunPassLeavesNoKey(rest, "", spent, m, i);
    } else if i < |m.stop| {
      NoKeyWithoutS(m.stop, i);
    }
  }

  lemma NoKeyInFlushed(s: string, run: string, spent: nat, m: Marks, i: nat)
    requires GoodMarks(m) && !Contains(run + s, KEY_PREFIX) && (s == "" || !IsRunChar(s[0]))
    requires i < |Flush(run, m)|
    ensures !Occurs(RunsRedacted(s, run, spent, m), KEY_PREFIX, i)
  {
    var flushed := Flush(run, m);
    var out := RunsRedacted(s, run, spent, m);
    assert flushed <= out;
    if |run| >= RUN_LIMIT {
      NoKeyWithoutS(out, i);
    } else if i + 7 <= |flushed| {
      assert out[i..i + 7] == (run + s)[i..i + 7];
      KeyInPart(out, run + s, i, i);
      assert !Occurs(run + s, KEY_PREFIX, i);
    } else if s != "" {
      NoKeyAcross(out, i, |flushed|);
    }
  }

  // ----- No long run survives -----

  predicate RunAt(s: string, i: nat) {
    i + RUN_LIMIT <= |s| && forall k :: i <= k < i + RUN_LIMIT ==> IsRunChar(s[k])
  }

  predicate NoLongRun(s: string) {
    forall i :: 0 <= i <= |s| ==> !RunAt(s, i)
  }

  lemma NoRunInTail(piece: string, tail: string, i: nat)
    requires i >= |piece| && !RunAt(tail, i - |piece|)
    ensures !RunAt(piece + tail, i)
  {
    if i + RUN_LIMIT <= |piece + tail| {
      var k :| i - |piece| <= k < i - |piece| + RUN_LIMIT && !IsRunChar(tail[k]);
      assert (piece + tail)[k + |piece|] == tail[k];
    }
  }

  lemma {:induction false} RunPassLeavesNoLongRun(s: string, run: string, spent: nat, m: Marks, i: nat)
    requires GoodMarks(m)
    ensures !RunAt(RunsRedacted(s, run, spent, m), i)
    decreases |s|
  {
    var flushed := Flush(run, m);
    if s != "" && IsRunChar(s[0]) {
      RunPassLeavesNoLongRun(s[1..], run + [s[0]], spent, m, i);
    } else if s != "" {
      var piece := flushed + [s[0]];
      var spent' := spent + Bytes(piece);
      var tail := AfterPiece(s[1..], spent', m);
      if i <= |flushed| {
        assert (piece + tail)[|flushed|] == s[0];
      } else {
        if spent' < OUTPUT_BUDGET { RunPassLeavesNoLongRun(s[1..], "", spent', m, i - |piece|); }
        NoRunInTail(piece, tail, i);
      }
    }
  }

  // ----- The output is short -----

  predicate IsAscii(s: string) {
    forall k :: 0 <= k < |s| ==> s[k] as int < 0x80
  }

  lemma {:induction false} AsciiBytes(s: string)
    requires IsAscii(s)
    ensures Bytes(s) == |s|
  {
    if s != "" { AsciiBytes(s[..|s| - 1]); }
  }

  predicate AllRunChars(s: string) {
    forall k :: 0 <= k < |s| ==> IsRunChar(s[k])
  }

  lemma PieceBytes(run: string, c: char, m: Marks)
    requires GoodMarks(m) && AllRunChars(run)
    ensures Bytes(Flush(run, m)) <= 31 && Bytes(Flush(run, m) + [c]) == Bytes(Flush(run, m)) + Utf8Len(c)
  {
    AsciiBytes(Flush(run, m));
    BytesConcat(Flush(run, m), [c]);
    assert Bytes([c]) == Utf8Len(c);
  }

  /** The budget stops the pass: at most 237 bytes are written in all. */
  lemma {:induction false} RunPassIsShort(s: string, run: string, spent: nat, m: Marks)
    requires GoodMarks(m) && spent < OUTPUT_BUDGET && AllRunChars(run)
    ensures spent + Bytes(RunsRedacted(s, run, spent, m)) <= 237
    ensures IsAscii(s) ==> spent + Bytes(RunsRedacted(s, run, spent, m)) <= 234
    decreases |s|
  {
    if s == "" {
      PieceBytes(run, 'x', m);
    } else if IsRunChar(s[0]) {
      RunPassIsShort(s[1..], run + [s[0]], spent, m);
    } else {
      PieceBytes(run, s[0], m);
      var spent' := spent + Bytes(Flush(run, m) + [s[0]]);
      BytesConcat(Flush(run, m) + [s[0]], AfterPiece(s[1..], spent', m));
      if spent' < OUTPUT_BUDGET {
        RunPassIsShort(s[1..], "", spent', m);
      } else {
        AsciiBytes(m.stop);
      }
    }
  }

  lemma {:induction false} KeyPassKeepsAscii(s: string)
    requires IsAscii(s)
    ensures IsAscii(KeysRedacted(s))
    decreases |s|
  {
    if s != "" {
      if StartsWith(s, KEY_PREFIX) {
        DropWordKeepsAscii(s[|KEY_PREFIX|..]);
        KeyPassKeepsAscii(DropWord(s[|KEY_PREFIX|..]));
      } else {
        KeyPassKeepsAscii(s[1..]);
      }
    }
  }

  lemma {:induction false} DropWordKeepsAscii(s: string)
    requires IsAscii(s)
    ensures IsAscii(DropWord(s))
  {
    if s != "" && !IsSpace(s[0]) { DropWordKeepsAscii(s[1..]); }
  }

  lemma AsciiConcat(s: string, t: string)
    requires IsAscii(s) && IsAscii(t)
    ensures IsAscii(s + t)
  {
  }

  lemma {:induction false} HeaderPassKeepsAscii(s: string, names: seq<string>, mark: string)
    requires IsAscii(s) && IsAscii(mark)
    ensures IsAscii(HeadersRedacted(s, names, mark))
    decreases |s|
  {
    if s != "" {
      var n := NameLength(s, names);
      var rest := if n > 0 then DropLine(s[n..]) else s[1..];
      if n > 0 { DropLineIsSuffix(s[n..]); }
      HeaderPassKeepsAscii(rest, names, mark);
      var piece := if n > 0 then s[..n] + mark else [s[0]];
      AsciiConcat(piece, HeadersRedacted(rest, names, mark));
    }
  }

  lemma {:induction false} RunPassKeepsAscii(s: string, run: string, spent: nat, m: Marks)
    requires GoodMarks(m) && IsAscii(s) && IsAscii(run)
    ensures IsAscii(RunsRedacted(s, run, spent, m))
    decreases |s|
  {
    if s != "" && IsRunChar(s[0]) {
      RunPassKeepsAscii(s[1..], run + [s[0]], spent, m);
    } else if s != "" {
      var piece := Flush(run, m) + [s[0]];
      var spent' := spent + Bytes(piece);
      if spent' < OUTPUT_BUDGET { RunPassKeepsAscii(s[1..], "", spent', m); }
      AsciiConcat(piece, AfterPiece(s[1..], spent', m));
    }
  }

  // ----- No header value survives -----

  /** `t` begins with `mark`, and the line ends there. */
  predicate SealedBy(mark: string, t: string) {
    mark <= t && (|t| == |mark| || IsEol(t[|mark|]))
  }

  /** `t` is `mark`, cut short where the output budget was reached. */
  predicate CutFrom(mark: string, stop: string, t: string) {
    exists k :: 0 <= k <= |mark| && t == mark[..k] + stop
  }

  predicate Sealed(t: string) {
    SealedBy(HEADER_MARK, t)
  }

  lemma NameLetters(name: string)
    requires name in HEADER_NAMES
    ensures 2 <= |name| && name[|name| - 1] == ':'
    ensures forall k :: 0 <= k < |name| - 1 ==> IsRunChar(name[k])
    ensures forall k :: 0 <= k < |name| ==> name[k] != ' ' && name[k] != '['
  {
  }

  /** `s` with its header values replaced, as the program configures the pass. */
  function HeaderPass(s: string): string {
    HeadersRedacted(s, HEADER_NAMES, HEADER_MARK)
  }

  /** An occurrence of a name can only have name letters in it. */
  lemma NoNameAcross(s: string, name: string, i: nat, k: nat)
    requires name in HEADER_NAMES && i <= k < i + |name| && k < |s|
    requires Lower(s[k]) != name[k - i]
    ensures !Occurs(s, name, i)
  {
    assert s[i..][k - i] == s[k];
  }

  lemma NameTooLate(s: string, name: string, i: nat)
    requires i + |name| > |s|
    ensures !Occurs(s, name, i)
  {
  }

  lemma NameInPart(s: string, t: string, name: string, i: nat)
    requires i + |name| <= |s| && i + |name| <= |t| && s[i..i + |name|] == t[i..i + |name|]
    ensures Occurs(s, name, i) ==> Occurs(t, name, i)
  {
    forall k | 0 <= k < |name| ensures s[i..][k] == t[i..][k] {
      assert s[i..i + |name|][k] == t[i..i + |name|][k];
    }
  }

  lemma NameLengthCases(s: string)
    ensures NameLength(s, HEADER_NAMES)
         == if StartsWith(s, AUTH_NAME) then |AUTH_NAME| else if StartsWith(s, API_KEY_NAME) then |API_KEY_NAME| else 0
  {
    var rest := [API_KEY_NAME];
    assert HEADER_NAMES[1..] == rest && HEADER_NAMES[0] == AUTH_NAME;
    assert rest[1..] == [] && NameLength(s, rest[1..]) == 0;
    assert NameLength(s, rest) == if StartsWith(s, API_KEY_NAME) then |API_KEY_NAME| else 0;
  }

  lemma HeaderPassKeepsEol(t: string)
    requires t == "" || IsEol(t[0])
    ensures HeaderPass(t) == "" || IsEol(HeaderPass(t)[0])
  {
    NameLengthCases(t);
  }

  /** No name is a proper suffix of a name. */
  lemma NoNameEndsName(whole: string, name: string, i: nat)
    requires whole in HEADER_NAMES && name in HEADER_NAMES && 0 < i && i + |name| == |whole|
    ensures whole[i] != name[0]
  {
  }

  /** The mark has no place where a name could begin. */
  lemma NoNameInMark(name: string, k: nat)
    requires name in HEADER_NAMES && k < |HEADER_MARK|
    ensures Lower(HEADER_MARK[k]) != name[0] || (k + 1 < |HEADER_MARK| && Lower(HEADER_MARK[k + 1]) != name[1])
  {
  }

  /** Inside a header name that stands at the front no other name begins. */
  lemma NoNameInName(out: string, whole: string, name: string, i: nat)
    requires whole in HEADER_NAMES && name in HEADER_NAMES && 0 < i < |whole| < |out|
    requires StartsWith(out, whole) && out[|whole|] == ' '
    ensures !Occurs(out, name, i)
  {
    NameLetters(name);
    NameLetters(whole);
    var last := i + |name| - 1;
    if |out| <= last {
      NameTooLate(out, name, i);
    } else if |whole| <= last {
      NoNameAcross(out, name, i, |whole|);
    } else if last < |whole| - 1 {
      NoNameAcross(out, name, i, last);
    } else {
      NoNameEndsName(whole, name, i);
      NoNameAcross(out, name, i, i);
    }
  }

  lemma NoNameInMarkAt(out: string, n: nat, name: string, i: nat)
    requires name in HEADER_NAMES && n <= i < n + |HEADER_MARK| <= |out|
    requires out[n..n + |HEADER_MARK|] == HEADER_MARK
    ensures !Occurs(out, name, i)
  {
    NameLetters(name);
    NoNameInMark(name, i - n);
    assert forall k :: n <= k < n + |HEADER_MARK| ==> out[k] == out[n..n + |HEADER_MARK|][k - n];
    if Lower(out[i]) != name[0] {
      NoNameAcross(out, name, i, i);
    } else {
      NoNameAcross(out, name, i, i + 1);
    }
  }

  lemma {:induction false} HeaderPassSeals(s: string, name: string, i: nat)
    requires name in HEADER_NAMES
    ensures Occurs(HeaderPass(s), name, i) ==> Sealed(HeaderPass(s)[i + |name|..])
    decreases |s|
  {
    var out := HeaderPass(s);
    var n := NameLength(s, HEADER_NAMES);
    NameLengthCases(s);
    if s == "" {
      NameTooLate(out, name, i);
    } else if n > 0 {
      SealsAtName(s, name, i);
    } else if i == 0 {
      NameLetters(name);
      HeaderPassPrefix(s, HEADER_NAMES, HEADER_MARK, name);
      assert out[0..] == out;
    } else {
      HeaderPassSeals(s[1..], name, i - 1);
      assert out == [s[0]] + HeaderPass(s[1..]);
      if i <= |out| { assert out[i..] == HeaderPass(s[1..])[i - 1..]; }
      if i + |name| <= |out| { assert out[i + |name|..] == HeaderPass(s[1..])[i - 1 + |name|..]; }
    }
  }

  lemma SealsAtName(s: string, name: string, i: nat)
    requires name in HEADER_NAMES && s != "" && NameLength(s, HEADER_NAMES) > 0
    ensures Occurs(HeaderPass(s), name, i) ==> Sealed(HeaderPass(s)[i + |name|..])
    decreases |s|, 0
  {
    var n := NameLength(s, HEADER_NAMES);
    NameLengthCases(s);
    var left := DropLine(s[n..]);
    var tail := HeaderPass(left);
    var out := HeaderPass(s);
    var past := n + |HEADER_MARK|;
    assert out == s[..n] + HEADER_MARK + tail;
    if i < past {
      HeaderPassKeepsEol(left);
      SealsInReplacement(s, out, tail, name, i);
    } else {
      HeaderPassSeals(left, name, i - past);
      if i <= |out| { assert out[i..] == tail[i - past..]; }
      if i + |name| <= |out| { assert out[i + |name|..] == tail[i - past + |name|..]; }
    }
  }

  lemma SealsInReplacement(s: string, out: string, tail: string, name: string, i: nat)
    requires name in HEADER_NAMES && NameLength(s, HEADER_NAMES) > 0
    requires i < NameLength(s, HEADER_NAMES) + |HEADER_MARK|
    requires out == s[..NameLength(s, HEADER_NAMES)] + HEADER_MARK + tail
    requires tail == "" || IsEol(tail[0])
    ensures Occurs(out, name, i) ==> Sealed(out[i + |name|..])
  {
    var n := NameLength(s, HEADER_NAMES);
    NameLengthCases(s);
    assert out[n..n + |HEADER_MARK|] == HEADER_MARK;
    if n <= i {
      NoNameInMarkAt(out, n, name, i);
    } else {
      var whole := if StartsWith(s, AUTH_NAME) then AUTH_NAME else API_KEY_NAME;
      assert forall k :: 0 <= k < n ==> out[k] == s[k];
      if i > 0 {
        assert out[n] == out[n..n + |HEADER_MARK|][0];
        NoNameInName(out, whole, name, i);
      } else if |name| != n {
        NoNameAcross(out, name, 0, 0);
      } else {
        assert out[n..] == HEADER_MARK + tail;
      }
    }
  }

  // How the heuristic pass treats the mark: a blank, a bracket, a word of run characters, a bracket.

  predicate MarkShape(mark: string, word: string) {
    AllRunChars(word) && |word| < RUN_LIMIT && mark == [' '] + (['['] + (word + [']']))
  }

  lemma MarkParts(mark: string, word: string)
    requires MarkShape(mark, word)
    ensures |mark| == |word| + 3
    ensures mark[0..1] == [' '] && mark[1..2] == ['['] && mark[2..|mark|] == word + [']']
  {
  }

  lemma HeaderMarkShape()
    ensures MarkShape(HEADER_MARK, "redacted-header")
  {
  }

  lemma NonRunStep(c: char, t: string, run: string, spent: nat, m: Marks)
    requires !IsRunChar(c)
    ensures
      var piece := Flush(run, m) + [c];
      RunsRedacted([c] + t, run, spent, m) == piece + AfterPiece(t, spent + Bytes(piece), m)
  {
    assert ([c] + t)[1..] == t;
  }

  lemma {:induction false} RunCharsJoinRun(w: string, t: string, run: string, spent: nat, m: Marks)
    requires AllRunChars(w)
    ensures RunsRedacted(w + t, run, spent, m) == RunsRedacted(t, run + w, spent, m)
    decreases |w|
  {
    if w == "" {
      assert w + t == t && run + w == run;
    } else {
      assert (w + t)[1..] == w[1..] + t;
      assert (run + [w[0]]) + w[1..] == run + w;
      RunCharsJoinRun(w[1..], t, run + [w[0]], spent, m);
    }
  }

  /** `t` with the first `k` letters of the mark in front is sealed or cut. */
  predicate Closes(mark: string, k: nat, m: Marks, t: string) {
    k <= |mark| && (SealedBy(mark, mark[..k] + t) || CutFrom(mark, m.stop, mark[..k] + t))
  }

  /** `piece` is the next part of the mark, so what closes it after the piece closes it before. */
  lemma PieceCloses(mark: string, k: nat, piece: string, m: Marks, t: string)
    requires k + |piece| <= |mark| && mark[k..k + |piece|] == piece
    requires Closes(mark, k + |piece|, m, t)
    ensures Closes(mark, k, m, piece + t)
  {
    assert mark[..k] + piece == mark[..k + |piece|];
    assert mark[..k] + (piece + t) == mark[..k + |piece|] + t;
  }

  lemma EolCloses(mark: string, rest: string, spent: nat, m: Marks)
    requires rest == "" || IsEol(rest[0])
    ensures Closes(mark, |mark|, m, AfterPiece(rest, spent, m))
  {
    var t := AfterPiece(rest, spent, m);
    assert mark[..|mark|] + t == mark + t;
    if spent < OUTPUT_BUDGET && rest != "" {
      assert rest == [rest[0]] + rest[1..];
      NonRunStep(rest[0], rest[1..], "", spent, m);
      assert IsEol(t[0]);
    }
  }

  lemma AfterChar(c: char, t: string, spent: nat, m: Marks)
    requires !IsRunChar(c) && spent < OUTPUT_BUDGET
    ensures AfterPiece([c] + t, spent, m) == [c] + AfterPiece(t, spent + Bytes([c]), m)
  {
    NonRunStep(c, t, "", spent, m);
    assert "" + [c] == [c];
  }

  lemma AfterWord(word: string, c: char, t: string, spent: nat, m: Marks)
    requires AllRunChars(word) && |word| < RUN_LIMIT && !IsRunChar(c) && spent < OUTPUT_BUDGET
    ensures AfterPiece(word + ([c] + t), spent, m) == (word + [c]) + AfterPiece(t, spent + Bytes(word + [c]), m)
  {
    RunCharsJoinRun(word, [c] + t, "", spent, m);
    assert "" + word == word;
    NonRunStep(c, t, word, spent, m);
  }

  lemma WordCloses(mark: string, word: string, rest: string, spent: nat, m: Marks)
    requires MarkShape(mark, word) && (rest == "" || IsEol(rest[0]))
    ensures Closes(mark, 2, m, AfterPiece(word + ([']'] + rest), spent, m))
  {
    if spent < OUTPUT_BUDGET {
      var spent' := spent + Bytes(word + [']']);
      MarkParts(mark, word);
      AfterWord(word, ']', rest, spent, m);
      EolCloses(mark, rest, spent', m);
      PieceCloses(mark, 2, word + [']'], m, AfterPiece(rest, spent', m));
    }
  }

  lemma BracketCloses(mark: string, word: string, rest: string, spent: nat, m: Marks)
    requires MarkShape(mark, word) && (rest == "" || IsEol(rest[0]))
    ensures Closes(mark, 1, m, AfterPiece(['['] + (word + ([']'] + rest)), spent, m))
  {
    if spent < OUTPUT_BUDGET {
      var spent' := spent + Bytes(['[']);
      MarkParts(mark, word);
      AfterChar('[', word + ([']'] + rest), spent, m);
      WordCloses(mark, word, rest, spent', m);
      PieceCloses(mark, 1, ['['], m, AfterPiece(word + ([']'] + rest), spent', m));
    }
  }

  lemma SealedParts(mark: string, word: string, t: string) returns (rest: string)
    requires MarkShape(mark, word) && SealedBy(mark, t)
    ensures rest == "" || IsEol(rest[0])
    ensures t == [' '] + (['['] + (word + ([']'] + rest)))
  {
    rest := t[|mark|..];
    assert t == mark + rest;
  }

  /** The mark itself passes the heuristic pass unchanged, unless the budget cuts it. */
  lemma SealedStaysSealed(mark: string, word: string, t: string, spent: nat, m: Marks)
    requires MarkShape(mark, word) && SealedBy(mark, t)
    ensures Closes(mark, 0, m, AfterPiece(t, spent, m))
  {
    if spent < OUTPUT_BUDGET {
      var rest := SealedParts(mark, word, t);
      var inner := ['['] + (word + ([']'] + rest));
      var spent' := spent + Bytes([' ']);
      MarkParts(mark, word);
      AfterChar(' ', inner, spent, m);
      BracketCloses(mark, word, rest, spent', m);
      PieceCloses(mark, 0, [' '], m, AfterPiece(inner, spent', m));
    }
  }

  // The names that survive, and what follows them.

  /** A header name: run characters, then a colon. */
  predicate IsName(name: string) {
    2 <= |name| && name[|name| - 1] == ':' && forall k :: 0 <= k < |name| - 1 ==> IsRunChar(name[k])
  }

  /** Every occurrence of `name` in `s` is followed by the mark and the end of the line. */
  ghost predicate AllSealed(s: string, name: string, mark: string) {
    forall i: nat | Occurs(s, name, i) :: SealedBy(mark, s[i + |name|..])
  }

  /** What the output promises at position `i`. */
  ghost predicate SafeAt(out: string, name: string, i: nat, mark: string, m: Marks) {
    Occurs(out, name, i) ==> Closes(mark, 0, m, out[i + |name|..])
  }

  lemma NotAName(s: string, name: string, i: nat, k: nat)
    requires IsName(name) && i <= k < i + |name| && k < |s|
    requires if k == i + |name| - 1 then s[k] != ':' else !IsRunChar(s[k])
    ensures !Occurs(s, name, i)
  {
    assert s[i..][k - i] == s[k];
  }

  lemma SafeInTail(piece: string, tail: string, name: string, i: nat, mark: string, m: Marks)
    requires |piece| <= i && SafeAt(tail, name, i - |piece|, mark, m)
    ensures SafeAt(piece + tail, name, i, mark, m)
  {
    if Occurs(piece + tail, name, i) {
      assert (piece + tail)[i..] == tail[i - |piece|..];
      assert (piece + tail)[i + |name|..] == tail[i - |piece| + |name|..];
    }
  }

  lemma SafeAtEnd(piece: string, tail: string, name: string, i: nat, mark: string, m: Marks)
    requires i + |name| == |piece| && (Occurs(piece, name, i) ==> Closes(mark, 0, m, tail))
    ensures SafeAt(piece + tail, name, i, mark, m)
  {
    NameInPart(piece + tail, piece, name, i);
    assert (piece + tail)[|piece|..] == tail;
  }

  lemma AllSealedSuffix(s: string, k: nat, name: string, mark: string)
    requires AllSealed(s, name, mark) && k <= |s|
    ensures AllSealed(s[k..], name, mark)
  {
    forall i: nat | Occurs(s[k..], name, i) ensures SealedBy(mark, s[k..][i + |name|..]) {
      assert s[k..][i..] == s[k + i..] && Occurs(s, name, k + i);
      assert s[k..][i + |name|..] == s[k + i + |name|..];
    }
  }

  lemma StopIsSafe(name: string, i: nat, mark: string, m: Marks)
    requires GoodMarks(m) && IsName(name)
    ensures SafeAt(m.stop, name, i, mark, m)
  {
    if i + |name| <= |m.stop| {
      NotAName(m.stop, name, i, i + |name| - 1);
    }
  }

  lemma NameAtPieceEnd(s: string, run: string, name: string, i: nat, mark: string, m: Marks)
    requires GoodMarks(m) && IsName(name) && s != "" && AllSealed(run + s, name, mark)
    requires i + |name| == |Flush(run, m)| + 1
    ensures Occurs(Flush(run, m) + [s[0]], name, i) ==> SealedBy(mark, s[1..])
  {
    var piece := Flush(run, m) + [s[0]];
    if |run| < RUN_LIMIT {
      assert piece[i..i + |name|] == (run + s)[i..i + |name|];
      NameInPart(piece, run + s, name, i);
      assert (run + s)[i + |name|..] == s[1..];
    } else {
      NotAName(piece, name, i, |piece| - 2);
    }
  }

  lemma NoNameInsidePiece(run: string, c: char, tail: string, name: string, i: nat, mark: string, m: Marks)
    requires GoodMarks(m) && IsName(name) && AllRunChars(run) && !IsRunChar(c)
    requires i <= |Flush(run, m)| && i + |name| != |Flush(run, m)| + 1
    ensures SafeAt((Flush(run, m) + [c]) + tail, name, i, mark, m)
  {
    var p := |Flush(run, m)|;
    var out := (Flush(run, m) + [c]) + tail;
    var last := i + |name| - 1;
    if last < p {
      assert out[last] == Flush(run, m)[last];
      NotAName(out, name, i, last);
    } else if last < |out| {
      assert out[p] == c;
      NotAName(out, name, i, p);
    }
  }

  lemma {:induction false} RunPassSeals(s: string, run: string, spent: nat, name: string, i: nat, mark: string,
        word: string, m: Marks)
    requires GoodMarks(m) && MarkShape(mark, word) && IsName(name) && AllRunChars(run) && AllSealed(run + s, name, mark)
    ensures SafeAt(RunsRedacted(s, run, spent, m), name, i, mark, m)
    decreases |s|
  {
    if s == "" {
      var out := Flush(run, m);
      if i + |name| <= |out| { NotAName(out, name, i, i + |name| - 1); }
    } else if IsRunChar(s[0]) {
      assert (run + [s[0]]) + s[1..] == run + s;
      RunPassSeals(s[1..], run + [s[0]], spent, name, i, mark, word, m);
    } else {
      var piece := Flush(run, m) + [s[0]];
      var spent' := spent + Bytes(piece);
      var tail := AfterPiece(s[1..], spent', m);
      if |piece| <= i {
        if spent' < OUTPUT_BUDGET {
          AllSealedSuffix(run + s, |run| + 1, name, mark);
          assert (run + s)[|run| + 1..] == "" + s[1..];
          RunPassSeals(s[1..], "", spent', name, i - |piece|, mark, word, m);
        } else {
          StopIsSafe(name, i - |piece|, mark, m);
        }
        SafeInTail(piece, tail, name, i, mark, m);
      } else if i + |name| == |piece| {
        NameAtPieceEnd(s, run, name, i, mark, m);
        if Occurs(piece, name, i) { SealedStaysSealed(mark, word, s[1..], spent', m); }
        SafeAtEnd(piece, tail, name, i, mark, m);
      } else {
        NoNameInsidePiece(run, s[0], tail, name, i, mark, m);
      }
    }
  }

  // ----- Main results -----

  /** No API key prefix survives, in any letter case. */
  lemma NoKeySurvives(body: string)
    ensures !Contains(Sanitized(body), KEY_PREFIX)
  {
    var afterKeys := KeysRedacted(body);
    var afterHeaders := HeaderPass(afterKeys);
    assert "" + afterHeaders == afterHeaders;
    ProgramMarksAreGood();
    forall i: nat ensures !Occurs(afterKeys, KEY_PREFIX, i) { KeyPassLeavesNoKey(body, i); }
    forall i: nat ensures !Occurs(afterHeaders, KEY_PREFIX, i) {
      HeaderPassLeavesNoKey(afterKeys, HEADER_NAMES, HEADER_MARK, i);
    }
    forall i: nat ensures !Occurs(Sanitized(body), KEY_PREFIX, i) {
      RunPassLeavesNoKey(afterHeaders, "", 0, RUN_MARKS, i);
    }
  }

  /** Every run of letters, digits, `-` and `_` in the output is shorter than 32. */
  lemma NoLongRunSurvives(body: string)
    ensures NoLongRun(Sanitized(body))
  {
    ProgramMarksAreGood();
    forall i | 0 <= i <= |Sanitized(body)| ensures !RunAt(Sanitized(body), i) {
      RunPassLeavesNoLongRun(HeaderPass(KeysRedacted(body)), "", 0, RUN_MARKS, i);
    }
  }

  /** After a header name the output shows the mark and the line end, or the budget cut the mark short: never
      the value. */
  lemma NoHeaderValueSurvives(body: string, name: string, i: nat)
    requires name in HEADER_NAMES && Occurs(Sanitized(body), name, i)
    ensures
      var rest := Sanitized(body)[i + |name|..];
      SealedBy(HEADER_MARK, rest) || CutFrom(HEADER_MARK, ELLIPSIS, rest)
  {
    var afterKeys := KeysRedacted(body);
    var afterHeaders := HeaderPass(afterKeys);
    assert "" + afterHeaders == afterHeaders;
    ProgramMarksAreGood();
    NameLetters(name);
    HeaderMarkShape();
    forall j: nat | Occurs(afterHeaders, name, j) ensures SealedBy(HEADER_MARK, afterHeaders[j + |name|..]) {
      HeaderPassSeals(afterKeys, name, j);
    }
    RunPassSeals(afterHeaders, "", 0, name, i, HEADER_MARK, "redacted-header", RUN_MARKS);
    var rest := Sanitized(body)[i + |name|..];
    assert HEADER_MARK[..0] + rest == rest;
  }

  /** The output has at most 237 bytes, and at most 234 for an ASCII body. */
  lemma OutputIsBounded(body: string)
    ensures Bytes(Sanitized(body)) <= 237
    ensures IsAscii(body) ==> |Sanitized(body)| <= 234
  {
    var afterKeys := KeysRedacted(body);
    var afterHeaders := HeaderPass(afterKeys);
    ProgramMarksAreGood();
    RunPassIsShort(afterHeaders, "", 0, RUN_MARKS);
    if IsAscii(body) {
      KeyPassKeepsAscii(body);
      HeaderPassKeepsAscii(afterKeys, HEADER_NAMES, HEADER_MARK);
      RunPassKeepsAscii(afterHeaders, "", 0, RUN_MARKS);
      AsciiBytes(Sanitized(body));
    }
  }

  // ----- Two bodies whose output is as long as the bound -----

  function Fill(c: char, n: nat): string {
    seq(n, i => c)
  }

  /** One byte short of the budget, then the longest run that is kept, then one more character. */
  function Longest(c: char): string {
    Fill(' ', 199) + (Fill('b', 31) + [c])
  }

  lemma FillFirst(c: char, n: nat, t: string)
    requires n > 0
    ensures Fill(c, n) + t == [c] + (Fill(c, n - 1) + t)
    ensures (Fill(c, n) + t)[1..] == Fill(c, n - 1) + t
    ensures Fill(c, n) == [c] + Fill(c, n - 1)
  {
    assert Fill(c, n) == [c] + Fill(c, n - 1);
  }

  lemma {:induction false} FillBytes(c: char, n: nat)
    requires Utf8Len(c) == 1
    ensures Bytes(Fill(c, n)) == n
  {
    if n > 0 {
      FillBytes(c, n - 1);
      BytesLast(Fill(c, n - 1), c);
      assert Fill(c, n) == Fill(c, n - 1) + [c];
    }
  }

  lemma {:induction false} SpacesPass(n: nat, t: string, spent: nat, m: Marks)
    requires spent + n < OUTPUT_BUDGET
    ensures RunsRedacted(Fill(' ', n) + t, "", spent, m) == Fill(' ', n) + RunsRedacted(t, "", spent + n, m)
  {
    if n == 0 {
      assert Fill(' ', 0) + t == t;
    } else {
      FillFirst(' ', n, t);
      SpacesPass(n - 1, t, spent + 1, m);
      var rest, tail := Fill(' ', n - 1) + t, RunsRedacted(t, "", spent + n, m);
      SpacePasses(rest, spent, m);
      FillFirst(' ', n, tail);
    }
  }

  lemma SpacePasses(rest: string, spent: nat, m: Marks)
    requires spent + 1 < OUTPUT_BUDGET
    ensures RunsRedacted([' '] + rest, "", spent, m) == [' '] + RunsRedacted(rest, "", spent + 1, m)
  {
    var s := [' '] + rest;
    assert s[1..] == rest && Flush("", m) + [s[0]] == [' '];
    BytesLast("", ' ');
    assert "" + [' '] == [' '];
  }

  lemma {:induction false} LettersGather(n: nat, t: string, run: string, spent: nat, m: Marks)
    ensures RunsRedacted(Fill('b', n) + t, run, spent, m) == RunsRedacted(t, run + Fill('b', n), spent, m)
  {
    if n == 0 {
      assert Fill('b', 0) + t == t && run + Fill('b', 0) == run;
    } else {
      FillFirst('b', n, t);
      LettersGather(n - 1, t, run + ['b'], spent, m);
      assert run + ['b'] + Fill('b', n - 1) == run + Fill('b', n);
    }
  }

  /** The character after the run spends the budget. */
  lemma LastPiece(run: string, c: char, spent: nat, m: Marks)
    requires |run| < RUN_LIMIT && !IsRunChar(c) && spent + Bytes(run) >= OUTPUT_BUDGET
    ensures RunsRedacted([c], run, spent, m) == run + [c] + m.stop
  {
    assert Flush(run, m) + [[c][0]] == run + [c] && [c][1..] == "";
    BytesLast(run, c);
  }

  /** No letter of it begins a key prefix or a header name. */
  lemma NothingToRedact(c: char, p: string)
    requires !IsRunChar(c) && p != "" && p[0] in {'s', 'a', 'x'}
    ensures !Contains(Longest(c), p)
  {
    var body := Longest(c);
    forall i: nat | i <= |body| ensures !Occurs(body, p, i) {
      if i < |body| {
        assert body[i..][0] == body[i] && Lower(body[i]) != p[0];
      }
    }
  }

  lemma LongestIsCut(c: char)
    requires !IsRunChar(c)
    ensures Sanitized(Longest(c)) == Longest(c) + ELLIPSIS
  {
    var body, m := Longest(c), RUN_MARKS;
    NothingToRedact(c, KEY_PREFIX);
    NoKeyUnchanged(body);
    NothingToRedact(c, AUTH_NAME);
    NothingToRedact(c, API_KEY_NAME);
    NoHeaderUnchanged(body, HEADER_NAMES, HEADER_MARK);
    LongestRuns(c, m);
    assert m.stop == ELLIPSIS;
  }

  lemma LongestRuns(c: char, m: Marks)
    requires !IsRunChar(c)
    ensures RunsRedacted(Longest(c), "", 0, m) == Longest(c) + m.stop
  {
    var run := Fill('b', 31);
    SpacesPass(199, run + [c], 0, m);
    LettersGather(31, [c], "", 199, m);
    assert "" + run == run;
    FillBytes('b', 31);
    LastPiece(run, c, 199, m);
    assert Fill(' ', 199) + (run + [c] + m.stop) == Longest(c) + m.stop;
  }

  lemma LongestBytes(c: char)
    ensures |Longest(c)| == 231 && Bytes(Longest(c)) == 230 + Utf8Len(c)
  {
    FillBytes(' ', 199);
    FillBytes('b', 31);
    BytesLast(Fill('b', 31), c);
    BytesConcat(Fill(' ', 199), Fill('b', 31) + [c]);
  }

  lemma EllipsisBytes()
    ensures |ELLIPSIS| == 3 && Bytes(ELLIPSIS) == 3
  {
    FillBytes('.', 3);
    assert ELLIPSIS == Fill('.', 3);
  }

  /** The budget can be overshot by the longest run kept, one character and the ellipsis. */
  lemma LongestOutput(c: char)
    requires !IsRunChar(c)
    ensures |Sanitized(Longest(c))| == 234 && Bytes(Sanitized(Longest(c))) == 233 + Utf8Len(c)
  {
    LongestIsCut(c);
    LongestBytes(c);
    EllipsisBytes();
    BytesConcat(Longest(c), ELLIPSIS);
  }

  /** Both bounds are reached: 234 characters of ASCII, and 237 bytes when the last character takes four. */
  lemma BoundsAreReached()
    ensures IsAscii(Longest('.')) && |Sanitized(Longest('.'))| == 234
    ensures Bytes(Sanitized(Longest('\U{1F600}'))) == 237
  {
    LongestOutput('.');
    LongestOutput('\U{1F600}');
  }

  lemma RunInSuffix(s: string, k: nat, i: nat)
    requires k <= |s| && !RunAt(s, k + i)
    ensures !RunAt(s[k..], i)
  {
    if i + RUN_LIMIT <= |s[k..]| {
      var j :| k + i <= j < k + i + RUN_LIMIT && !IsRunChar(s[j]);
      assert s[k..][j - k] == s[j];
    }
  }

  lemma NoLongRunSuffix(s: string, k: nat)
    requires k <= |s| && NoLongRun(s)
    ensures NoLongRun(s[k..])
  {
    forall i | 0 <= i <= |s[k..]| ensures !RunAt(s[k..], i) { RunInSuffix(s, k, i); }
  }

  lemma BytesFirst(s: string)
    requires s != ""
    ensures Bytes(s) == Utf8Len(s[0]) + Bytes(s[1..])
  {
    assert s == [s[0]] + s[1..] && Bytes([s[0]]) == Utf8Len(s[0]);
    BytesConcat([s[0]], s[1..]);
  }

  lemma BytesLast(s: string, c: char)
    ensures Bytes(s + [c]) == Bytes(s) + Utf8Len(c)
  {
    assert (s + [c])[..|s|] == s;
  }

  /** Nothing of the pending run and the text is redacted or cut. */
  ghost predicate ShortText(s: string, run: string, spent: nat) {
    AllRunChars(run) && NoLongRun(run + s) && spent + Bytes(run) + Bytes(s) < OUTPUT_BUDGET
  }

  lemma PendingRunIsShort(s: string, run: string, spent: nat)
    requires ShortText(s, run, spent)
    ensures |run| < RUN_LIMIT
  {
    assert !RunAt(run + s, 0);
  }

  lemma ShortTextAfterRunChar(s: string, run: string, spent: nat)
    requires ShortText(s, run, spent) && s != "" && IsRunChar(s[0])
    ensures ShortText(s[1..], run + [s[0]], spent)
  {
    assert (run + [s[0]]) + s[1..] == run + s;
    BytesFirst(s);
    BytesLast(run, s[0]);
  }

  lemma ShortTextAfterPiece(s: string, run: string, spent: nat)
    requires ShortText(s, run, spent) && s != ""
    ensures ShortText(s[1..], "", spent + Bytes(run + [s[0]])) && spent + Bytes(run + [s[0]]) < OUTPUT_BUDGET
  {
    var k := |run| + 1;
    NoLongRunSuffix(run + s, k);
    assert (run + s)[k..] == "" + s[1..];
    BytesFirst(s);
    BytesLast(run, s[0]);
  }

  lemma {:induction false} ShortTextUnchanged(s: string, run: string, spent: nat, m: Marks)
    requires ShortText(s, run, spent)
    ensures RunsRedacted(s, run, spent, m) == run + s
    decreases |s|
  {
    PendingRunIsShort(s, run, spent);
    if s == "" {
      assert run + s == run;
    } else {
      var piece, rest := run + [s[0]], s[1..];
      assert piece + rest == run + s;
      if IsRunChar(s[0]) {
        ShortTextAfterRunChar(s, run, spent);
        ShortTextUnchanged(rest, piece, spent, m);
      } else {
        ShortTextAfterPiece(s, run, spent);
        ShortTextUnchanged(rest, "", spent + Bytes(piece), m);
        assert "" + rest == rest;
      }
    }
  }

  /** A short body with no key, no header and no long run is logged verbatim: nothing else is ever lost. */
  lemma HarmlessBodyIsUnchanged(body: string)
    requires !Contains(body, KEY_PREFIX) && !ContainsAny(body, HEADER_NAMES)
    requires NoLongRun(body) && Bytes(body) < OUTPUT_BUDGET
    ensures Sanitized(body) == body
  {
    NoKeyUnchanged(body);
    NoHeaderUnchanged(body, HEADER_NAMES, HEADER_MARK);
    assert "" + body == body;
    ShortTextUnchanged(body, "", 0, RUN_MARKS);
  }
}
