/** Redaction of diagnostic payloads, and the ring buffer of redacted events. */
module Redaction {
  import opened Prelude
  import J = Json

  const SAFE_KEYS: set<string> := {
    "service", "version", "build", "commit", "os", "arch", "cpu_count", "mem_bytes",
    "level", "target", "event", "kind", "code", "status", "timestamp", "ts", "uptime_secs", "elapsed_ms",
    "count", "seq",
    "error", "error_type", "message", "panic", "location", "thread", "backtrace_hash", "span", "spans", "reason_code"
  }

  const REDACTED := "[redacted]"

  /** The Unicode `White_Space` property. */
  predicate IsSpace(c: char) {
    var u := c as int;
    9 <= u <= 13 || u == 0x20 || u == 0x85 || u == 0xA0 || u == 0x1680 || 0x2000 <= u <= 0x200A
    || u == 0x2028 || u == 0x2029 || u == 0x202F || u == 0x205F || u == 0x3000
  }

  /** Among ASCII characters, whitespace is the space, tab, line feed, vertical tab, form feed and
      carriage return. */
  lemma AsciiSpaces(c: char)
    requires c as int < 128
    ensures IsSpace(c) <==> c == ' ' || c == '\t' || c == '\n' || c as int == 11 || c as int == 12 || c == '\r'
  {
  }

  // ---- Secret-looking words ------------------------------------------------

  /** The index of the first `c` in `w`, or the length. */
  function IndexOf(w: string, c: char): (i: nat)
    ensures i <= |w| && (i < |w| ==> w[i] == c) && forall k :: 0 <= k < i ==> w[k] != c
  {
    if w == [] then 0 else if w[0] == c then 0 else 1 + IndexOf(w[1..], c)
  }

  predicate LooksLikeEmail(w: string) {
    var at := IndexOf(w, '@');
    0 < at < |w| && '.' in w[at + 1..]
  }

  predicate IsAsciiDigit(c: char) {
    '0' <= c <= '9'
  }

  predicate IsTokenChar(c: char) {
    'a' <= c <= 'z' || 'A' <= c <= 'Z' || IsAsciiDigit(c) || c == '_' || c == '-' || c == '+' || c == '/'
  }

  predicate LooksLikeToken(w: string) {
    |w| >= 24 && (forall c :: c in w ==> IsTokenChar(c)) && (exists c :: c in w && IsAsciiDigit(c))
  }

  predicate Secret(w: string) {
    LooksLikeEmail(w) || LooksLikeToken(w)
  }

  /** An email: a first '@' that is not the first character, and a dot somewhere after it. */
  lemma EmailIff(w: string)
    ensures LooksLikeEmail(w) <==>
            exists i, j :: 0 < i < j < |w| && w[i] == '@' && w[j] == '.' && forall k :: 0 <= k < i ==> w[k] != '@'
  {
    var at := IndexOf(w, '@');
    if LooksLikeEmail(w) {
      var j :| 0 <= j < |w[at + 1..]| && w[at + 1..][j] == '.';
      assert w[at + 1 + j] == '.';
    }
    if i, j :| 0 < i < j < |w| && w[i] == '@' && w[j] == '.' && forall k :: 0 <= k < i ==> w[k] != '@' {
      assert at == i && w[at + 1..][j - at - 1] == '.';
    }
  }

  /** An opaque token: 24 characters or more, all ASCII letters, digits, `_`, `-`, `+` or `/`, with
      a digit among them. */
  lemma TokenIff(w: string)
    ensures LooksLikeToken(w) <==>
            && |w| >= 24
            && (forall k :: 0 <= k < |w| ==>
                  || 'a' <= w[k] <= 'z' || 'A' <= w[k] <= 'Z' || '0' <= w[k] <= '9'
                  || w[k] == '_' || w[k] == '-' || w[k] == '+' || w[k] == '/')
            && exists k :: 0 <= k < |w| && '0' <= w[k] <= '9'
  {
    if c :| c in w && IsAsciiDigit(c) {
      var k :| 0 <= k < |w| && w[k] == c;
    }
    if k :| 0 <= k < |w| && '0' <= w[k] <= '9' {
      assert w[k] in w && IsAsciiDigit(w[k]);
    }
    if forall c :: c in w ==> IsTokenChar(c) {
      assert forall k :: 0 <= k < |w| ==> w[k] in w;
    }
  }

  // ---- Words ---------------------------------------------------------------

  /** The index of the first whitespace in `s`, or the length. */
  function FirstSpace(s: string): (i: nat)
    ensures i <= |s| && (i < |s| ==> IsSpace(s[i])) && forall k :: 0 <= k < i ==> !IsSpace(s[k])
  {
    if s == [] then 0 else if IsSpace(s[0]) then 0 else 1 + FirstSpace(s[1..])
  }

  /** `split_inclusive(char::is_whitespace)`. */
  function Words(s: string): seq<string> {
    if s == [] then []
    else
      var i := FirstSpace(s);
      if i == |s| then [s] else [s[..i + 1]] + Words(s[i + 1..])
  }

  function TrimEnd(w: string): string {
    if w != [] && IsSpace(w[|w| - 1]) then TrimEnd(w[..|w| - 1]) else w
  }

  lemma TrimEndPrefix(w: string)
    ensures TrimEnd(w) <= w
  {
  }

  /** One word with its trailing whitespace. */
  function ScrubWord(word: string): string {
    var trimmed := TrimEnd(word);
    TrimEndPrefix(word);
    (if Secret(trimmed) then REDACTED else trimmed) + word[|trimmed|..]
  }

  function ScrubWords(ws: seq<string>): string {
    if ws == [] then [] else ScrubWords(ws[..|ws| - 1]) + ScrubWord(ws[|ws| - 1])
  }

  function Scrub(s: string): string {
    ScrubWords(Words(s))
  }

  method ScrubString(s: string) returns (out: string)
    ensures out == Scrub(s)
  {
    hide Words, TrimEnd, LooksLikeEmail, LooksLikeToken;
    var words := Words(s);
    out := [];
    for i := 0 to |words|
      invariant out == ScrubWords(words[..i])
    {
      assert words[..i + 1][..i] == words[..i];
      var word := words[i];
      var trimmed := TrimEnd(word);
      TrimEndPrefix(word);
      var ws := word[|trimmed|..];
      if LooksLikeEmail(trimmed) || LooksLikeToken(trimmed) {
        out := out + REDACTED;
      } else {
        out := out + trimmed;
      }
      out := out + ws;
    }
    assert words[..|words|] == words;
  }

  // ---- What scrubbing does to words ----------------------------------------

  ghost predicate NoSpace(w: string) {
    forall k :: 0 <= k < |w| ==> !IsSpace(w[k])
  }

  /** The word itself, once scrubbed. */
  function ScrubBody(body: string): string {
    if Secret(body) then REDACTED else body
  }

  lemma RedactedIsPlain()
    ensures NoSpace(REDACTED) && !Secret(REDACTED)
  {
    assert |REDACTED| == 10;
    assert forall k :: 0 <= k < |REDACTED| ==> REDACTED[k] != '@';
  }

  lemma ScrubBodyPlain(body: string)
    requires NoSpace(body)
    ensures NoSpace(ScrubBody(body)) && !Secret(ScrubBody(body)) && (body != [] ==> ScrubBody(body) != [])
  {
    RedactedIsPlain();
  }

  lemma TrimBody(body: string)
    requires NoSpace(body)
    ensures TrimEnd(body) == body
  {
  }

  lemma TrimClosed(body: string, c: char)
    requires NoSpace(body) && IsSpace(c)
    ensures TrimEnd(body + [c]) == body
  {
    assert (body + [c])[..|body|] == body;
    TrimBody(body);
  }

  /** A word is a body without whitespace, closed by one whitespace or the end of the text. */
  lemma ScrubBare(body: string)
    requires NoSpace(body)
    ensures ScrubWord(body) == ScrubBody(body)
  {
    TrimBody(body);
  }

  lemma ScrubClosed(body: string, c: char)
    requires NoSpace(body) && IsSpace(c)
    ensures ScrubWord(body + [c]) == ScrubBody(body) + [c]
  {
    hide Secret, TrimEnd;
    TrimClosed(body, c);
    assert (body + [c])[|body|..] == [c];
  }

  lemma {:induction false} ScrubWordsCons(w: string, ws: seq<string>)
    ensures ScrubWords([w] + ws) == ScrubWord(w) + ScrubWords(ws)
  {
    hide ScrubWord;
    if ws == [] {
      assert [w] + ws == [w] && [w][..0] == [];
    } else {
      var init := ws[..|ws| - 1];
      ScrubWordsCons(w, init);
      assert ([w] + ws)[..|ws|] == [w] + init;
    }
  }

  lemma WordsBare(body: string)
    requires NoSpace(body) && body != []
    ensures Words(body) == [body]
  {
  }

  lemma WordsClosed(body: string, c: char, rest: string)
    requires NoSpace(body) && IsSpace(c)
    ensures Words(body + [c] + rest) == [body + [c]] + Words(rest)
  {
    hide IsSpace;
    var s := body + [c] + rest;
    assert s[|body|] == c;
    assert forall k :: 0 <= k < |body| ==> s[k] == body[k];
    assert FirstSpace(s) == |body|;
    assert s[..|body| + 1] == body + [c] && s[|body| + 1..] == rest;
  }

  function ScrubEach(ws: seq<string>): (r: seq<string>)
    ensures |r| == |ws|
    ensures forall i :: 0 <= i < |ws| ==> r[i] == ScrubWord(ws[i])
  {
    seq(|ws|, i requires 0 <= i < |ws| => ScrubWord(ws[i]))
  }

  lemma ScrubOne(w: string)
    ensures ScrubWords([w]) == ScrubWord(w)
  {
    hide ScrubWord;
    assert [w][..0] == [];
  }

  /** Text is a body without whitespace and then nothing, or one whitespace and more text. */
  lemma FirstWord(s: string) returns (body: string, closed: bool, c: char, rest: string)
    requires s != []
    ensures NoSpace(body) && |rest| < |s|
    ensures !closed ==> s == body
    ensures closed ==> IsSpace(c) && s == body + [c] + rest
  {
    var i := FirstSpace(s);
    closed := i < |s|;
    body, c, rest := s[..i], s[if closed then i else 0], if closed then s[i + 1..] else [];
  }

  /** A text of one word is replaced as a whole, or kept. */
  lemma ScrubbedBare(body: string)
    requires NoSpace(body) && body != []
    ensures Scrub(body) == ScrubBody(body) == if Secret(body) then "[redacted]" else body
  {
    hide ScrubWord, ScrubWords, Words, Secret;
    WordsBare(body);
    ScrubOne(body);
    ScrubBare(body);
  }

  /** The first word is replaced or kept, its whitespace kept, and the rest scrubbed the same way. */
  lemma ScrubbedClosed(body: string, c: char, rest: string)
    requires NoSpace(body) && IsSpace(c)
    ensures Scrub(body + [c] + rest) == ScrubBody(body) + [c] + Scrub(rest)
    ensures ScrubBody(body) == if Secret(body) then "[redacted]" else body
  {
    hide ScrubWord, ScrubWords, Words, Secret;
    WordsClosed(body, c, rest);
    ScrubWordsCons(body + [c], Words(rest));
    ScrubClosed(body, c);
  }

  lemma ScrubbedNothing()
    ensures Scrub([]) == [] && Words([]) == []
  {
  }

  /** `w` has the shape of a word and nothing secret in it. */
  ghost predicate CleanWord(w: string) {
    exists body :: NoSpace(body) && !Secret(body) && (w == body || exists c :: IsSpace(c) && w == body + [c])
  }

  lemma ScrubEachCons(w: string, ws: seq<string>)
    ensures ScrubEach([w] + ws) == [ScrubWord(w)] + ScrubEach(ws)
  {
  }

  /** Scrubbing works word by word: the words of the result are the scrubbed words. */
  lemma {:induction false} ScrubLayout(s: string)
    ensures Words(Scrub(s)) == ScrubEach(Words(s))
    ensures forall w :: w in Words(Scrub(s)) ==> CleanWord(w)
    decreases |s|
  {
    hide Words, Scrub, ScrubWord, ScrubBody, IsSpace, NoSpace, Secret, CleanWord, ScrubEach;
    if s == [] {
      ScrubbedNothing();
    } else {
      var body, closed, c, rest := FirstWord(s);
      var body' := ScrubBody(body);
      ScrubBodyPlain(body);
      if !closed {
        ScrubbedBare(body);
        WordsBare(body);
        WordsBare(body');
        ScrubBare(body);
        assert ScrubEach([body]) == [body'];
        CleanBody(body', None);
      } else {
        ScrubLayout(rest);
        ScrubbedClosed(body, c, rest);
        WordsClosed(body, c, rest);
        WordsClosed(body', c, Scrub(rest));
        ScrubClosed(body, c);
        ScrubEachCons(body + [c], Words(rest));
        CleanBody(body', Some(c));
      }
    }
  }

  lemma CleanBody(body: string, c: Option<char>)
    requires NoSpace(body) && !Secret(body) && (c.Some? ==> IsSpace(c.value))
    ensures CleanWord(if c.Some? then body + [c.value] else body)
  {
    hide NoSpace, Secret, IsSpace;
  }

  /** Text in which no word looks like an email or a token. */
  ghost predicate CleanText(s: string) {
    forall w :: w in Words(s) ==> !Secret(TrimEnd(w))
  }

  lemma CleanWordTrims(w: string)
    requires CleanWord(w)
    ensures !Secret(TrimEnd(w))
  {
    hide NoSpace, Secret, IsSpace, TrimEnd;
    var body :| NoSpace(body) && !Secret(body) && (w == body || exists c :: IsSpace(c) && w == body + [c]);
    if w == body {
      TrimBody(body);
    } else {
      var c :| IsSpace(c) && w == body + [c];
      TrimClosed(body, c);
    }
  }

  /** After scrubbing, no whitespace-separated word looks like an email or an opaque token. */
  lemma ScrubIsClean(s: string)
    ensures CleanText(Scrub(s))
  {
    hide Words, Scrub, CleanWord, Secret, TrimEnd;
    ScrubLayout(s);
    forall w | w in Words(Scrub(s)) ensures !Secret(TrimEnd(w)) {
      CleanWordTrims(w);
    }
  }

  lemma CleanTail(w: string, ws: seq<string>)
    requires forall x :: x in [w] + ws ==> !Secret(TrimEnd(x))
    ensures !Secret(TrimEnd(w)) && forall x :: x in ws ==> !Secret(TrimEnd(x))
  {
    hide Secret, TrimEnd;
    assert w in [w] + ws;
    assert forall x :: x in ws ==> x in [w] + ws;
  }

  /** Text that is clean already is left alone. */
  lemma {:induction false} CleanTextKept(s: string)
    requires CleanText(s)
    ensures Scrub(s) == s
    decreases |s|
  {
    hide Words, Scrub, IsSpace, NoSpace, Secret, TrimEnd;
    if s == [] {
      ScrubbedNothing();
    } else {
      var body, closed, c, rest := FirstWord(s);
      if !closed {
        ScrubbedBare(body);
        WordsBare(body);
        TrimBody(body);
        assert body in [body];
      } else {
        ScrubbedClosed(body, c, rest);
        WordsClosed(body, c, rest);
        TrimClosed(body, c);
        CleanTail(body + [c], Words(rest));
        CleanTextKept(rest);
      }
    }
  }

  // ---- Words without splitting ---------------------------------------------

  /** `s[i..j]` is a maximal stretch without whitespace. */
  ghost predicate IsWord(s: string, i: int, j: int) {
    && 0 <= i < j <= |s| && NoSpace(s[i..j])
    && (i == 0 || IsSpace(s[i - 1])) && (j == |s| || IsSpace(s[j]))
  }

  ghost predicate NoSecretWord(s: string) {
    forall i, j :: IsWord(s, i, j) ==> !Secret(s[i..j])
  }

  lemma WordOfBare(body: string, i: int, j: int)
    requires NoSpace(body) && IsWord(body, i, j)
    ensures i == 0 && j == |body|
  {
  }

  /** The words of a text are its first word, if not empty, and those of the rest. */
  lemma WordOfClosed(body: string, c: char, rest: string, i: int, j: int)
    requires NoSpace(body) && IsSpace(c)
    ensures var s, n := body + [c] + rest, |body| + 1;
            && (IsWord(s, i, j) <==> (i == 0 && j == |body| && body != []) || (n <= i && IsWord(rest, i - n, j - n)))
            && (n <= i < j <= |s| ==> s[i..j] == rest[i - n..j - n])
            && s[..|body|] == body
  {
    hide IsSpace;
    var s, n := body + [c] + rest, |body| + 1;
    assert s[|body|] == c && s[..|body|] == body;
    if n <= i < j <= |s| {
      assert s[i..j] == rest[i - n..j - n];
    }
    if 0 <= i < j <= |s| && NoSpace(s[i..j]) && i < n {
      if j > |body| {
        assert s[i..j][|body| - i] == c;
      }
      if i > 0 {
        assert s[i - 1] == body[i - 1];
      }
      if j < |body| {
        assert s[j] == body[j];
      }
    }
    if i == 0 && j == |body| {
      assert s[i..j] == body;
    }
  }

  lemma NoSecretNothing()
    ensures !Secret([])
  {
  }

  /** Clean text, said without splitting: no maximal stretch without whitespace is a secret. */
  lemma {:induction false} CleanTextIff(s: string)
    ensures CleanText(s) <==> NoSecretWord(s)
    decreases |s|
  {
    hide Words, IsSpace, NoSpace, Secret, TrimEnd;
    if s == [] {
      ScrubbedNothing();
    } else {
      var body, closed, c, rest := FirstWord(s);
      if closed {
        CleanTextIff(rest);
        CleanClosed(body, c, rest);
        NoSecretClosed(body, c, rest);
      } else {
        CleanBare(body);
      }
    }
  }

  lemma CleanBare(body: string)
    requires NoSpace(body) && body != []
    ensures CleanText(body) <==> !Secret(body)
    ensures NoSecretWord(body) <==> !Secret(body)
  {
    WordsBare(body);
    TrimBody(body);
    hide Words, TrimEnd, Secret;
    assert body in [body] && body[0..|body|] == body && IsWord(body, 0, |body|);
    forall i, j | IsWord(body, i, j) ensures body[i..j] == body {
      WordOfBare(body, i, j);
    }
  }

  lemma CleanClosed(body: string, c: char, rest: string)
    requires NoSpace(body) && IsSpace(c)
    ensures CleanText(body + [c] + rest) <==> !Secret(body) && CleanText(rest)
  {
    hide Words, IsSpace, NoSpace, Secret, TrimEnd;
    WordsClosed(body, c, rest);
    TrimClosed(body, c);
    var w, ws := body + [c], Words(rest);
    assert w in [w] + ws && forall x :: x in [w] + ws <==> x == w || x in ws;
  }

  lemma NoSecretClosed(body: string, c: char, rest: string)
    requires NoSpace(body) && IsSpace(c)
    ensures NoSecretWord(body + [c] + rest) <==> !Secret(body) && NoSecretWord(rest)
  {
    hide IsSpace, NoSpace, Secret;
    var s, n := body + [c] + rest, |body| + 1;
    NoSecretNothing();
    if NoSecretWord(s) {
      WordOfClosed(body, c, rest, 0, |body|);
      assert s[0..|body|] == body;
      forall i, j | IsWord(rest, i, j) ensures !Secret(rest[i..j]) {
        WordOfClosed(body, c, rest, i + n, j + n);
        assert IsWord(s, i + n, j + n);
      }
    }
    if !Secret(body) && NoSecretWord(rest) {
      forall i, j | IsWord(s, i, j) ensures !Secret(s[i..j]) {
        WordOfClosed(body, c, rest, i, j);
      }
    }
  }

  /** After scrubbing, no maximal stretch without whitespace looks like an email or a token. */
  lemma ScrubLeavesNoSecret(s: string)
    ensures NoSecretWord(Scrub(s))
  {
    ScrubIsClean(s);
    CleanTextIff(Scrub(s));
  }

  /** The whitespace of a text, in order. */
  function Spaces(s: string): string {
    Select(s, IsSpace)
  }

  lemma SpacesAfter(body: string, tail: string)
    requires NoSpace(body)
    ensures Spaces(body + tail) == Spaces(tail)
  {
    SelectNone(body, IsSpace);
    SelectConcat(body, tail, IsSpace);
  }

  lemma SpacesCons(c: char, rest: string)
    requires IsSpace(c)
    ensures Spaces([c] + rest) == [c] + Spaces(rest)
  {
    SelectConcat([c], rest, IsSpace);
    SelectAll([c], IsSpace);
  }

  lemma SpacesOf(body: string, c: char, rest: string)
    requires NoSpace(body) && IsSpace(c)
    ensures Spaces(body + [c] + rest) == [c] + Spaces(rest)
  {
    hide IsSpace, NoSpace, Spaces;
    assert body + [c] + rest == body + ([c] + rest);
    SpacesAfter(body, [c] + rest);
    SpacesCons(c, rest);
  }

  /** Scrubbing keeps every whitespace character, in order. */
  lemma {:induction false} ScrubKeepsSpaces(s: string)
    ensures Spaces(Scrub(s)) == Spaces(s)
    decreases |s|
  {
    hide Words, Scrub, ScrubBody, IsSpace, NoSpace, Secret, Spaces;
    if s == [] {
      ScrubbedNothing();
    } else {
      var body, closed, c, rest := FirstWord(s);
      var body' := ScrubBody(body);
      ScrubBodyPlain(body);
      if !closed {
        ScrubbedBare(body);
        SpacesAfter(body, []);
        SpacesAfter(body', []);
        assert body + [] == body && body' + [] == body';
      } else {
        ScrubbedClosed(body, c, rest);
        ScrubKeepsSpaces(rest);
        SpacesOf(body, c, rest);
        SpacesOf(body', c, Scrub(rest));
      }
    }
  }

  // ---- Redacting values ----------------------------------------------------

  function Redact(v: J.Value): J.Value {
    match v
    case Object(fields) => J.Object(map k | k in fields && k in SAFE_KEYS :: Redact(fields[k]))
    case Array(items) => J.Array(seq(|items|, i requires 0 <= i < |items| => Redact(items[i])))
    case String(s) => J.String(Scrub(s))
    case _ => v
  }

  /** At every depth only allowlisted keys, and only clean text. */
  ghost predicate Clean(v: J.Value) {
    match v
    case Object(fields) => forall k :: k in fields ==> k in SAFE_KEYS && Clean(fields[k])
    case Array(items) => forall i :: 0 <= i < |items| ==> Clean(items[i])
    case String(s) => CleanText(s)
    case _ => true
  }

  /** Whatever goes in, nothing but allowlisted keys and clean text comes out. */
  lemma {:induction false} RedactIsClean(v: J.Value)
    ensures Clean(Redact(v))
    decreases v
  {
    hide Scrub, CleanText;
    match v
    case Object(fields) =>
      forall k | k in fields && k in SAFE_KEYS ensures Clean(Redact(fields[k])) {
        RedactIsClean(fields[k]);
      }
    case Array(items) =>
      forall i | 0 <= i < |items| ensures Clean(Redact(items[i])) {
        RedactIsClean(items[i]);
      }
    case String(s) => ScrubIsClean(s);
    case _ =>
  }

  /** A clean value passes through unchanged: nothing allowed is lost. */
  lemma {:induction false} CleanIsKept(v: J.Value)
    requires Clean(v)
    ensures Redact(v) == v
    decreases v
  {
    hide Scrub, CleanText, SAFE_KEYS;
    match v
    case Object(fields) =>
      forall k | k in fields ensures Redact(fields[k]) == fields[k] {
        CleanIsKept(fields[k]);
      }
    case Array(items) =>
      forall i | 0 <= i < |items| ensures Redact(items[i]) == items[i] {
        CleanIsKept(items[i]);
      }
    case String(s) => CleanTextKept(s);
    case _ =>
  }

  lemma RedactIdempotent(v: J.Value)
    ensures Redact(Redact(v)) == Redact(v)
  {
    RedactIsClean(v);
    CleanIsKept(Redact(v));
  }

  method RedactValue(v: J.Value) returns (r: J.Value)
    ensures r == Redact(v)
    decreases v
  {
    hide Scrub, SAFE_KEYS;
    match v
    case Object(fields) =>
      var out: map<string, J.Value> := map[];
      var todo := fields.Keys;
      while todo != {}
        invariant todo <= fields.Keys
        invariant out == map k | k in fields && k !in todo && k in SAFE_KEYS :: Redact(fields[k])
        decreases |todo|
      {
        var k :| k in todo;
        if k in SAFE_KEYS {
          var x := RedactValue(fields[k]);
          out := out[k := x];
        }
        todo := todo - {k};
      }
      r := J.Object(out);
    case Array(items) =>
      var out: seq<J.Value> := [];
      for i := 0 to |items|
        invariant |out| == i && forall j :: 0 <= j < i ==> out[j] == Redact(items[j])
      {
        var x := RedactValue(items[i]);
        out := out + [x];
      }
      r := J.Array(out);
    case String(s) =>
      var t := ScrubString(s);
      r := J.String(t);
    case _ => r := v;
  }

  // ---- The ring buffer -----------------------------------------------------

  function RedactAll(events: seq<J.Value>): (r: seq<J.Value>)
    ensures |r| == |events|
    ensures forall i :: 0 <= i < |r| ==> r[i] == Redact(events[i])
  {
    seq(|events|, i requires 0 <= i < |events| => Redact(events[i]))
  }

  /** The last `n` elements, or all of a shorter list. */
  function LastOf<T>(s: seq<T>, n: nat): seq<T> {
    if |s| <= n then s else s[|s| - n..]
  }

  class DiagBuffer {
    const cap: nat
    var events: seq<J.Value>
    ghost var pushed: seq<J.Value>

    /** The buffer holds the redacted last `cap` events pushed, oldest first. */
    ghost predicate Valid()
      reads this
    {
      cap >= 1 && events == LastOf(RedactAll(pushed), cap)
    }

    constructor (capacity: nat)
      ensures Valid() && pushed == [] && cap == if capacity > 1 then capacity else 1
    {
      cap := if capacity > 1 then capacity else 1;
      events, pushed := [], [];
    }

    method Push(event: J.Value)
      requires Valid()
      modifies this
      ensures Valid() && pushed == old(pushed) + [event]
    {
      if |events| == cap {
        events := events[1..];
      }
      var redacted := RedactValue(event);
      events := events + [redacted];
      pushed := pushed + [event];
      assert RedactAll(pushed) == RedactAll(old(pushed)) + [redacted];
    }

    method Snapshot() returns (r: seq<J.Value>)
      requires Valid()
      ensures r == LastOf(RedactAll(pushed), cap)
      ensures |r| == if |pushed| < cap then |pushed| else cap
      ensures forall i :: 0 <= i < |r| ==> r[i] == Redact(pushed[|pushed| - |r| + i])
      ensures forall v :: v in r ==> Clean(v)
    {
      r := events;
      forall v | v in r ensures Clean(v) {
        var i :| 0 <= i < |r| && r[i] == v;
        var j := i + |pushed| - |r|;
        assert r[i] == RedactAll(pushed)[j] == Redact(pushed[j]);
        RedactIsClean(pushed[j]);
      }
    }
  }

  /** An address in running text is replaced. */
  lemma AddressRedacted(user: string, host: string)
    requires NoSpace(user + "@" + host) && user != [] && '@' !in user && '.' in host
    ensures Scrub(user + "@" + host) == "[redacted]"
  {
    var w := user + "@" + host;
    var j :| 0 <= j < |host| && host[j] == '.';
    assert w[|user|] == '@' && w[|user| + 1 + j] == '.' && forall k :: 0 <= k < |user| ==> w[k] == user[k];
    EmailIff(w);
    hide Scrub, LooksLikeEmail, LooksLikeToken, ScrubBody;
    ScrubbedBare(w);
  }

  /** Of an object exactly the allowlisted members are kept, each redacted. */
  lemma RedactedMembers(fields: map<string, J.Value>, k: string)
    ensures var out := Redact(J.Object(fields));
            && out.Object? && (k in out.fields <==> k in fields && k in SAFE_KEYS)
            && (k in out.fields ==> out.fields[k] == Redact(fields[k]))
    ensures "count" in SAFE_KEYS && "wo_number" !in SAFE_KEYS && "email" !in SAFE_KEYS && "token" !in SAFE_KEYS
  {
  }
}
