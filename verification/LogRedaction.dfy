/** Log redaction (src/chat/client.rs, `sanitize_for_log`): three passes over a response body, and what can never
    survive them.
    A string is a sequence of Unicode scalar values; `Bytes` gives its UTF-8 length, which the output budget counts. */
module LogRedaction {
  import opened Basics

  const KEY_PREFIX := "sk-ant-"
  const KEY_MARK := "[redacted-key]"
  const AUTH_NAME := "authorization:"
  const API_KEY_NAME := "x-api-key:"
  const HEADER_NAMES := [AUTH_NAME, API_KEY_NAME]
  const HEADER_MARK := " [redacted-header]"
  const RUN_MARK := "[redacted]"
  const ELLIPSIS := "..."
  /** The two texts the heuristic pass inserts: for a long run, and where the budget stops it. */
  datatype Marks = Marks(run: string, stop: string)
  const RUN_MARKS := Marks(RUN_MARK, ELLIPSIS)
  const RUN_LIMIT: nat := 32
  const OUTPUT_BUDGET: nat := 200

  // ----- Characters -----

  predicate IsSpace(c: char) {
    c == ' ' || c == '\t' || c == '\n' || c == '\r' || c as int == 12
  }

  predicate IsEol(c: char) {
    c == '\r' || c == '\n'
  }

  predicate IsRunChar(c: char) {
    'a' <= c <= 'z' || 'A' <= c <= 'Z' || '0' <= c <= '9' || c == '-' || c == '_'
  }

  function Utf8Len(c: char): nat {
    if c as int < 0x80 then 1 else if c as int < 0x800 then 2 else if c as int < 0x1_0000 then 3 else 4
  }

  function Bytes(s: string): nat {
    if s == "" then 0 else Bytes(s[..|s| - 1]) + Utf8Len(s[|s| - 1])
  }

  /** `s` begins with the lower-case pattern `p`, ignoring ASCII case. */
  predicate StartsWith(s: string, p: string) {
    |p| <= |s| && forall k :: 0 <= k < |p| ==> Lower(s[k]) == p[k]
  }

  predicate Occurs(s: string, p: string, i: nat) {
    i <= |s| && StartsWith(s[i..], p)
  }

  predicate Contains(s: string, p: string) {
    exists i :: 0 <= i <= |s| && Occurs(s, p, i)
  }

  // ----- The three passes as functions -----

  function DropWord(s: string): (r: string)
    ensures |r| <= |s|
  {
    if s == "" || IsSpace(s[0]) then s else DropWord(s[1..])
  }

  function DropLine(s: string): (r: string)
    ensures |r| <= |s|
    ensures r == "" || IsEol(r[0])
  {
    if s == "" || IsEol(s[0]) then s else DropLine(s[1..])
  }

  function KeysRedacted(s: string): string
    decreases |s|
  {
    if s == "" then ""
    else if StartsWith(s, KEY_PREFIX) then KEY_MARK + KeysRedacted(DropWord(s[|KEY_PREFIX|..]))
    else [s[0]] + KeysRedacted(s[1..])
  }

  /** The length of the first of `names` that `s` begins with, or 0. */
  function NameLength(s: string, names: seq<string>): (n: nat)
    ensures n <= |s|
  {
    if names == [] then 0 else if StartsWith(s, names[0]) then |names[0]| else NameLength(s, names[1..])
  }

  function HeadersRedacted(s: string, names: seq<string>, mark: string): string
    decreases |s|
  {
    var n := NameLength(s, names);
    if s == "" then ""
    else if n > 0 then s[..n] + mark + HeadersRedacted(DropLine(s[n..]), names, mark)
    else [s[0]] + HeadersRedacted(s[1..], names, mark)
  }

  function Flush(run: string, m: Marks): string {
    if |run| >= RUN_LIMIT then m.run else run
  }

  /** What the heuristic pass still writes, with `run` pending, `s` unread and `spent` bytes written. */
  function RunsRedacted(s: string, run: string, spent: nat, m: Marks): string
    decreases |s|, 0
  {
    if s == "" then Flush(run, m)
    else if IsRunChar(s[0]) then RunsRedacted(s[1..], run + [s[0]], spent, m)
    else
      var piece := Flush(run, m) + [s[0]];
      piece + AfterPiece(s[1..], spent + Bytes(piece), m)
  }

  /** What follows a piece that brings the output to `spent` bytes. */
  function AfterPiece(rest: string, spent: nat, m: Marks): string
    decreases |rest|, 1
  {
    if spent >= OUTPUT_BUDGET then m.stop else RunsRedacted(rest, "", spent, m)
  }

  function Sanitized(body: string): string {
    RunsRedacted(HeadersRedacted(KeysRedacted(body), HEADER_NAMES, HEADER_MARK), "", 0, RUN_MARKS)
  }

  // ----- The three passes as loops -----

  /** The inner loop of the key pass: the first whitespace at or after `from`, or the end. */
  method WordEnd(body: string, from: nat) returns (j: nat)
    requires from <= |body|
    ensures from <= j <= |body| && body[j..] == DropWord(body[from..])
  {
    j := from;
    while j < |body| && !IsSpace(body[j])
      invariant from <= j <= |body|
      invariant DropWord(body[j..]) == DropWord(body[from..])
    {
      assert body[j..][1..] == body[j + 1..];
      j := j + 1;
    }
  }

  /** The inner loop of the header pass: the first line end at or after `from`, or the end. */
  method LineEnd(body: string, from: nat) returns (j: nat)
    requires from <= |body|
    ensures from <= j <= |body| && body[j..] == DropLine(body[from..])
  {
    j := from;
    while j < |body| && !IsEol(body[j])
      invariant from <= j <= |body|
      invariant DropLine(body[j..]) == DropLine(body[from..])
    {
      assert body[j..][1..] == body[j + 1..];
      j := j + 1;
    }
  }

  lemma Emit(total: string, out: string, rest: string, piece: string, tail: string)
    requires out + rest == total && rest == piece + tail
    ensures (out + piece) + tail == total
  {
    assert (out + piece) + tail == out + (piece + tail);
  }

  method RedactAnthropicKeys(body: string) returns (out: string)
    ensures out == KeysRedacted(body)
  {
    out := "";
    var i := 0;
    while i < |body|
      invariant 0 <= i <= |body|
      invariant out + KeysRedacted(body[i..]) == KeysRedacted(body)
    {
      ghost var rest := body[i..];
      if StartsWith(body[i..], KEY_PREFIX) {
        var j := WordEnd(body, i + |KEY_PREFIX|);
        assert rest[|KEY_PREFIX|..] == body[i + |KEY_PREFIX|..];
        Emit(KeysRedacted(body), out, KeysRedacted(rest), KEY_MARK, KeysRedacted(body[j..]));
        out := out + KEY_MARK;
        i := j;
      } else {
        assert rest[1..] == body[i + 1..];
        Emit(KeysRedacted(body), out, KeysRedacted(rest), [rest[0]], KeysRedacted(body[i + 1..]));
        out := out + [body[i]];
        i := i + 1;
      }
    }
  }

  /** The loop body of the header pass: what is written at position `i`, and where reading goes on. */
  method RedactHeaderAt(body: string, i: nat, names: seq<string>, mark: string) returns (piece: string, j: nat)
    requires i < |body|
    ensures i < j <= |body|
    ensures piece + HeadersRedacted(body[j..], names, mark) == HeadersRedacted(body[i..], names, mark)
  {
    ghost var rest := body[i..];
    var n := NameLength(body[i..], names);
    assert rest[n..] == body[i + n..] && rest[..n] == body[i..i + n] && rest[1..] == body[i + 1..];
    if n > 0 {
      piece := body[i..i + n] + mark;
      j := LineEnd(body, i + n);
    } else {
      piece := [body[i]];
      j := i + 1;
    }
  }

  method RedactSensitiveHeaders(body: string, names: seq<string>, mark: string) returns (out: string)
    ensures out == HeadersRedacted(body, names, mark)
  {
    out := "";
    var i := 0;
    while i < |body|
      invariant 0 <= i <= |body|
      invariant out + HeadersRedacted(body[i..], names, mark) == HeadersRedacted(body, names, mark)
    {
      var piece, j := RedactHeaderAt(body, i, names, mark);
      Emit(HeadersRedacted(body, names, mark), out, HeadersRedacted(body[i..], names, mark), piece,
        HeadersRedacted(body[j..], names, mark));
      out := out + piece;
      i := j;
    }
  }

  lemma {:induction false} BytesConcat(s: string, t: string)
    ensures Bytes(s + t) == Bytes(s) + Bytes(t)
    decreases |t|
  {
    if t == "" {
      assert s + t == s;
    } else {
      BytesConcat(s, t[..|t| - 1]);
      assert (s + t)[..|s + t| - 1] == s + t[..|t| - 1];
    }
  }

  /** One non-run character ends the pending run: what is written now, and what is left to write. */
  lemma RunEnds(rest: string, run: string, m: Marks, out: string, total: string)
    requires rest != "" && !IsRunChar(rest[0])
    requires out + RunsRedacted(rest, run, Bytes(out), m) == total
    ensures var out' := out + (Flush(run, m) + [rest[0]]); out' + AfterPiece(rest[1..], Bytes(out'), m) == total
  {
    var piece := Flush(run, m) + [rest[0]];
    BytesConcat(out, piece);
    Emit(total, out, RunsRedacted(rest, run, Bytes(out), m), piece,
      AfterPiece(rest[1..], Bytes(out) + Bytes(piece), m));
  }

  method RedactRuns(body: string, m: Marks) returns (out: string)
    ensures out == RunsRedacted(body, "", 0, m)
  {
    out := "";
    var run := "";
    var i := 0;
    while i < |body|
      invariant 0 <= i <= |body|
      invariant out + RunsRedacted(body[i..], run, Bytes(out), m) == RunsRedacted(body, "", 0, m)
    {
      assert body[i..][1..] == body[i + 1..];
      var ch := body[i];
      if IsRunChar(ch) {
        run := run + [ch];
      } else {
        RunEnds(body[i..], run, m, out, RunsRedacted(body, "", 0, m));
        out := out + (Flush(run, m) + [ch]);
        run := "";
        if Bytes(out) >= OUTPUT_BUDGET {
          return out + m.stop;
        }
      }
      i := i + 1;
    }
    out := out + Flush(run, m);
  }

  // ----- What a pass does to a body it has nothing to redact in -----

  lemma {:induction false} NoKeyUnchanged(s: string)
    requires !Contains(s, KEY_PREFIX)
    ensures KeysRedacted(s) == s
  {
    if s != "" {
      assert s[0..] == s && !Occurs(s, KEY_PREFIX, 0);
      forall i | 0 <= i <= |s[1..]| ensures !Occurs(s[1..], KEY_PREFIX, i) {
        assert s[1..][i..] == s[i + 1..] && !Occurs(s, KEY_PREFIX, i + 1);
      }
      NoKeyUnchanged(s[1..]);
    }
  }

  predicate ContainsAny(s: string, names: seq<string>) {
    exists k :: 0 <= k < |names| && Contains(s, names[k])
  }

  lemma {:induction false} NameLengthZero(s: string, names: seq<string>)
    requires !ContainsAny(s, names)
    ensures NameLength(s, names) == 0
  {
    if names != [] {
      assert !Contains(s, names[0]) && s[0..] == s && !Occurs(s, names[0], 0);
      forall k | 0 <= k < |names[1..]| ensures !Contains(s, names[1..][k]) {
        assert names[1..][k] == names[k + 1] && !Contains(s, names[k + 1]);
      }
      NameLengthZero(s, names[1..]);
    }
  }

  lemma {:induction false} NoHeaderUnchanged(s: string, names: seq<string>, mark: string)
    requires !ContainsAny(s, names)
    ensures HeadersRedacted(s, names, mark) == s
  {
    if s != "" {
      NameLengthZero(s, names);
      forall k | 0 <= k < |names| ensures !Contains(s[1..], names[k]) {
        assert !Contains(s, names[k]);
        forall i | 0 <= i <= |s[1..]| ensures !Occurs(s[1..], names[k], i) {
          assert s[1..][i..] == s[i + 1..] && !Occurs(s, names[k], i + 1);
        }
      }
      NoHeaderUnchanged(s[1..], names, mark);
    }
  }

  /** `sanitize_for_log`: each guard skips its pass only where the pass would change nothing. */
  method SanitizeForLog(body: string) returns (out: string)
    ensures out == Sanitized(body)
  {
    var afterKeys := body;
    if Contains(body, KEY_PREFIX) {
      afterKeys := RedactAnthropicKeys(body);
    } else {
      NoKeyUnchanged(body);
    }
    var afterHeaders := afterKeys;
    if ContainsAny(afterKeys, HEADER_NAMES) {
      afterHeaders := RedactSensitiveHeaders(afterKeys, HEADER_NAMES, HEADER_MARK);
    } else {
      NoHeaderUnchanged(afterKeys, HEADER_NAMES, HEADER_MARK);
    }
    out := RedactRuns(afterHeaders, RUN_MARKS);
  }
}
