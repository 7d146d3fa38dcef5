/** The write-prevention guard a connection applies before executing SQL:
    while writes are being prevented, a statement the classifier calls a write
    is refused with a `ReadOnlyError` whose message is a fixed prefix followed
    by the statement itself; everything else is allowed to run.
 */
module WriteGuard {
  import opened Common
  import opened QueryClassifier

  const ReadOnlyMessagePrefix: string := "Write query attempted while in readonly mode: "

  /** The leading keywords the tests expect to be refused. */
  const WriteKeywords: set<string> := {"INSERT", "UPDATE", "DELETE", "REPLACE"}

  /** Decides whether `sql` may run; `preventing` is the connection's
      `preventing_writes?` at the time of the call. */
  function CheckQuery(sql: string, preventing: bool): (r: Outcome<()>)
    ensures r.Raised? <==> preventing && Classify(sql) == Write
    ensures r.Raised? ==> r.error == ReadOnlyError(ReadOnlyMessagePrefix + sql)
  {
    if preventing && IsWriteQuery(sql) then Raised(ReadOnlyError(ReadOnlyMessagePrefix + sql))
    else Returned(())
  }

  /** Each write keyword is a nonempty upper-case word that classifies as a
      write. */
  lemma WriteKeywordsAreNotReads(word: string)
    requires word in WriteKeywords
    ensures |word| > 0 && (forall i :: 0 <= i < |word| ==> IsLetter(word[i]))
    ensures Upper(word) == word
    ensures KeywordKind(word) == Write
  {
    assert Upper(word) == word;
  }

  /** An INSERT, UPDATE, DELETE or REPLACE statement, in any case and after any
      leading comments, blanks and parentheses, is refused while writes are
      prevented, and the error message is the prefix followed by the statement,
      so it begins with the prefix and the statement's keyword. */
  lemma WriteStatementRejected(fs: seq<Filler>, word: string, rest: string)
    requires ValidFillers(fs)
    requires |word| > 0 && (forall i :: 0 <= i < |word| ==> IsLetter(word[i])) && Upper(word) in WriteKeywords
    requires |rest| == 0 || !IsLetter(rest[0])
    ensures var sql := Render(fs) + (word + rest);
      && CheckQuery(sql, true) == Raised(ReadOnlyError(ReadOnlyMessagePrefix + sql))
      && (fs == [] ==> StartsWith(CheckQuery(sql, true).error.message, ReadOnlyMessagePrefix + word))
  {
    WriteKeywordsAreNotReads(Upper(word));
    CaseInsensitive(word);
    ClassifyDecomposed(fs, word, rest);
    var sql := Render(fs) + (word + rest);
    if fs == [] {
      assert sql == word + rest;
      assert (ReadOnlyMessagePrefix + sql)[..|ReadOnlyMessagePrefix + word|] == ReadOnlyMessagePrefix + word;
    }
  }

  /** A statement whose leading keyword is on the read list is never refused,
      whatever the prevention state. */
  lemma ReadStatementAllowed(fs: seq<Filler>, word: string, rest: string, preventing: bool)
    requires ValidFillers(fs)
    requires |word| > 0 && forall i :: 0 <= i < |word| ==> IsLetter(word[i])
    requires Upper(word) in ReadKeywords
    requires |rest| == 0 || !IsLetter(rest[0])
    ensures CheckQuery(Render(fs) + (word + rest), preventing) == Returned(())
  {
    ClassifyDecomposed(fs, word, rest);
  }
}
