/** Read/write classification of SQL text, as the MySQL adapter performs it
    before executing a statement while writes are being prevented.

    The classifier skips every leading "filler" — whitespace, an opening
    parenthesis, or a complete `/* ... */` comment — and then compares the first
    keyword, case-insensitively, with a fixed list of read-only leading words.
    A statement with nothing left after the fillers is blank and is never
    treated as a write.
 */
module QueryClassifier {
  import opened Common

  datatype Kind = Read | Write

  /** The leading keywords of statements that never modify data: queries,
      introspection, session settings and transaction control. */
  const ReadKeywords: set<string> :=
    {"SELECT", "WITH", "SHOW", "DESCRIBE", "DESC", "SET", "EXPLAIN", "USE",
     "RELEASE", "SAVEPOINT", "ROLLBACK", "BEGIN", "COMMIT"}

  /** True when `word`, compared case-insensitively, is a read-only leading keyword. */
  predicate IsReadKeyword(word: string) {
    Upper(word) in ReadKeywords
  }

  /** The kind of a statement that starts with `word`. */
  function KeywordKind(word: string): Kind {
    if IsReadKeyword(word) then Read else Write
  }

  /** The whitespace class `\s` of a Ruby regular expression. */
  predicate IsSpace(c: char) {
    c == ' ' || c == '\t' || c == '\n' || c == '\r' || c as int == 11 || c as int == 12
  }

  predicate IsLetter(c: char) {
    ('A' <= c <= 'Z') || ('a' <= c <= 'z')
  }

  function UpperChar(c: char): char {
    if 'a' <= c <= 'z' then (c as int - 32) as char else c
  }

  function Upper(s: string): (u: string)
    ensures |u| == |s|
  {
    seq(|s|, i requires 0 <= i < |s| => UpperChar(s[i]))
  }

  /** True when a comment terminator `*` `/` starts at index `i` of `s`. */
  predicate ClosesAt(s: string, i: int) {
    0 <= i && i + 1 < |s| && s[i] == '*' && s[i + 1] == '/'
  }

  /** The index just past the first comment terminator at or after `from`,
      if there is one. */
  function CommentClose(s: string, from: nat): (r: Option<nat>)
    requires from <= |s|
    ensures r.Some? ==> from + 2 <= r.value <= |s| && ClosesAt(s, r.value - 2)
    ensures r.Some? ==> forall i :: from <= i < r.value - 2 ==> !ClosesAt(s, i)
    ensures r.None? ==> forall i :: from <= i < |s| ==> !ClosesAt(s, i)
    decreases |s| - from
  {
    if from + 2 > |s| then None
    else if s[from] == '*' && s[from + 1] == '/' then Some(from + 2)
    else CommentClose(s, from + 1)
  }

  /** One unit of text the classifier skips before the first keyword. */
  datatype Filler = Blank(c: char) | OpenParen | Comment(body: string)

  predicate ValidFiller(f: Filler) {
    match f
    case Blank(c) => IsSpace(c)
    case OpenParen => true
    case Comment(body) => forall i :: 0 <= i < |body| ==> !ClosesAt(body, i)
  }

  predicate ValidFillers(fs: seq<Filler>) {
    forall i :: 0 <= i < |fs| ==> ValidFiller(fs[i])
  }

  function RenderFiller(f: Filler): string {
    match f
    case Blank(c) => [c]
    case OpenParen => "("
    case Comment(body) => "/*" + body + "*/"
  }

  function Render(fs: seq<Filler>): string {
    if |fs| == 0 then "" else RenderFiller(fs[0]) + Render(fs[1..])
  }

  /** True when `s` begins with something the classifier skips. An unterminated
      comment is not skipped. */
  predicate StartsWithFiller(s: string) {
    && |s| > 0
    && (|| IsSpace(s[0])
        || s[0] == '('
        || (|s| >= 2 && s[0] == '/' && s[1] == '*' && CommentClose(s, 2).Some?))
  }

  lemma RenderCons(f: Filler, fs: seq<Filler>)
    ensures Render([f] + fs) == RenderFiller(f) + Render(fs)
  {
    assert ([f] + fs)[1..] == fs;
  }

  /** Puts one more skipped filler in front of a split. */
  function Prepend(f: Filler, p: (seq<Filler>, string)): (q: (seq<Filler>, string))
    requires ValidFiller(f) && ValidFillers(p.0)
    ensures ValidFillers(q.0)
    ensures Render(q.0) + q.1 == RenderFiller(f) + (Render(p.0) + p.1)
    ensures q.1 == p.1
  {
    RenderCons(f, p.0);
    ([f] + p.0, p.1)
  }

  /** A comment closed at `k` is a valid filler that renders as `s[..k]`. */
  lemma ClosedComment(s: string, k: nat)
    requires |s| >= 2 && s[0] == '/' && s[1] == '*'
    requires CommentClose(s, 2) == Some(k)
    ensures ValidFiller(Comment(s[2..k - 2]))
    ensures RenderFiller(Comment(s[2..k - 2])) + s[k..] == s
  {
    ClosedCommentBody(s, k);
    assert s[..2] == "/*";
    assert s[k - 2..k] == "*/";
    SplitFour(s, 2, k - 2, k);
  }

  /** The text between the opening and the first closing of a comment holds no
      terminator. */
  lemma ClosedCommentBody(s: string, k: nat)
    requires |s| >= 2 && CommentClose(s, 2) == Some(k)
    ensures ValidFiller(Comment(s[2..k - 2]))
  {
    var body := s[2..k - 2];
    forall i | 0 <= i < |body| ensures !ClosesAt(body, i) {
      assert !ClosesAt(s, i + 2);
    }
  }

  /** Splits `s` into its leading fillers and the rest of the statement. */
  function LeadingFillers(s: string): (p: (seq<Filler>, string))
    ensures ValidFillers(p.0)
    ensures Render(p.0) + p.1 == s
    ensures !StartsWithFiller(p.1)
    decreases |s|
  {
    if |s| == 0 then ([], s)
    else if IsSpace(s[0]) || s[0] == '(' then
      var f := if s[0] == '(' then OpenParen else Blank(s[0]);
      assert s == RenderFiller(f) + s[1..];
      Prepend(f, LeadingFillers(s[1..]))
    else if |s| >= 2 && s[0] == '/' && s[1] == '*' then
      match CommentClose(s, 2)
      case Some(k) =>
        ClosedComment(s, k);
        Prepend(Comment(s[2..k - 2]), LeadingFillers(s[k..]))
      case None => ([], s)
    else ([], s)
  }

  /** The longest prefix of `s` made of letters: the leading keyword. */
  function FirstWord(s: string): (w: string)
    ensures StartsWith(s, w)
    ensures forall i :: 0 <= i < |w| ==> IsLetter(w[i])
    ensures |w| == |s| || !IsLetter(s[|w|])
  {
    if |s| > 0 && IsLetter(s[0]) then [s[0]] + FirstWord(s[1..]) else ""
  }

  /** Classifies a statement. A blank statement is exempt and counts as a read. */
  function Classify(sql: string): Kind {
    var rest := LeadingFillers(sql).1;
    if |rest| == 0 then Read
    else KeywordKind(FirstWord(rest))
  }

  predicate IsWriteQuery(sql: string) {
    Classify(sql) == Write
  }

  /** The index just past a well-formed comment is found exactly at its end. */
  lemma CommentCloseOfRendered(body: string, s: string)
    requires ValidFiller(Comment(body))
    ensures CommentClose("/*" + body + "*/" + s, 2) == Some(|body| + 4)
  {
    var x := "/*" + body + "*/" + s;
    assert ClosesAt(x, |body| + 2);
    var r := CommentClose(x, 2);
    forall i | 2 <= i < |body| + 2 ensures !ClosesAt(x, i) {
      if i + 1 < |body| + 2 {
        assert x[i] == body[i - 2] && x[i + 1] == body[i - 1];
        assert !ClosesAt(body, i - 2);
      } else {
        assert x[i + 1] == '*';
      }
    }
  }

  /** Skipping one well-formed filler in front of `y` leaves the split of `y`. */
  lemma SkipOne(f: Filler, y: string)
    requires ValidFiller(f)
    ensures LeadingFillers(RenderFiller(f) + y).1 == LeadingFillers(y).1
  {
    var x := RenderFiller(f) + y;
    match f
    case Blank(c) =>
      assert x[0] == c && x[1..] == y;
    case OpenParen =>
      assert x[0] == '(' && x[1..] == y;
    case Comment(body) =>
      assert x == "/*" + body + "*/" + y;
      assert x[0] == '/' && x[1] == '*';
      CommentCloseOfRendered(body, y);
      assert x[|body| + 4..] == y;
  }

  /** Skipping leading fillers is insensitive to any well-formed filler prefix:
      whatever fillers come first, classification looks at the same text. */
  lemma {:induction false} SkipsRenderedFillers(fs: seq<Filler>, s: string)
    requires ValidFillers(fs)
    ensures LeadingFillers(Render(fs) + s).1 == LeadingFillers(s).1
    decreases |fs|
  {
    if |fs| > 0 {
      var y := Render(fs[1..]) + s;
      assert ValidFiller(fs[0]);
      assert ValidFillers(fs[1..]) by {
        forall i | 0 <= i < |fs[1..]| ensures ValidFiller(fs[1..][i]) {
          assert fs[1..][i] == fs[i + 1];
        }
      }
      var x := Render(fs) + s;
      assert x == RenderFiller(fs[0]) + y;
      SkipOne(fs[0], y);
      SkipsRenderedFillers(fs[1..], s);
      calc {
        LeadingFillers(x).1;
        LeadingFillers(RenderFiller(fs[0]) + y).1;
        LeadingFillers(y).1;
        LeadingFillers(s).1;
      }
    } else {
      assert Render(fs) + s == s;
    }
  }

  /** Text that starts with a letter has no leading fillers. */
  lemma KeywordStartIsNotSkipped(s: string)
    requires |s| > 0 && IsLetter(s[0])
    ensures LeadingFillers(s) == ([], s)
  {
    assert !IsSpace(s[0]) && s[0] != '(' && s[0] != '/';
  }

  /** The leading keyword of a letter-run followed by a non-letter is that run. */
  lemma {:induction false} FirstWordOf(word: string, rest: string)
    requires forall i :: 0 <= i < |word| ==> IsLetter(word[i])
    requires |rest| == 0 || !IsLetter(rest[0])
    ensures FirstWord(word + rest) == word
    decreases |word|
  {
    if |word| > 0 {
      assert (word + rest)[1..] == word[1..] + rest;
      FirstWordOf(word[1..], rest);
    } else {
      assert word + rest == rest;
    }
  }

  /** Well-formed leading fillers never change a statement's classification. */
  lemma ClassifyAfterFillers(fs: seq<Filler>, s: string)
    requires ValidFillers(fs)
    ensures Classify(Render(fs) + s) == Classify(s)
  {
    SkipsRenderedFillers(fs, s);
  }

  /** A statement that starts with a keyword is classified by that keyword. */
  lemma ClassifyKeywordStart(word: string, rest: string)
    requires |word| > 0 && forall i :: 0 <= i < |word| ==> IsLetter(word[i])
    requires |rest| == 0 || !IsLetter(rest[0])
    ensures Classify(word + rest) == KeywordKind(word)
  {
    var s := word + rest;
    assert s[0] == word[0];
    KeywordStartIsNotSkipped(s);
    FirstWordOf(word, rest);
  }

  /** The classification of any statement made of well-formed fillers, a leading
      keyword and anything not continuing that keyword: a read exactly when the
      upper-cased keyword is on the read list. */
  lemma ClassifyDecomposed(fs: seq<Filler>, word: string, rest: string)
    requires ValidFillers(fs)
    requires |word| > 0 && forall i :: 0 <= i < |word| ==> IsLetter(word[i])
    requires |rest| == 0 || !IsLetter(rest[0])
    ensures Classify(Render(fs) + (word + rest)) == KeywordKind(word)
  {
    ClassifyAfterFillers(fs, word + rest);
    ClassifyKeywordStart(word, rest);
  }

  /** A statement consisting only of fillers is blank, hence exempt. */
  lemma {:induction false} FillersOnlyAreReads(fs: seq<Filler>)
    requires ValidFillers(fs)
    ensures Classify(Render(fs)) == Read
  {
    SkipsRenderedFillers(fs, "");
    assert Render(fs) + "" == Render(fs);
  }

  /** Upper-casing leaves an upper-case keyword alone, so lower-case and mixed
      case spellings of a keyword classify like the keyword itself. */
  lemma CaseInsensitive(word: string)
    ensures KeywordKind(Upper(word)) == KeywordKind(word)
  {
    assert Upper(Upper(word)) == Upper(word);
  }

  /** Every read keyword is a nonempty upper-case word. */
  lemma ReadKeywordIsWord(w: string)
    requires w in ReadKeywords
    ensures |w| > 0 && (forall i :: 0 <= i < |w| ==> IsLetter(w[i])) && Upper(w) == w
  {
  }
}
