/** The statements the MySQL adapter is expected to refuse or run while writes
    are prevented, classified by the write guard.
 */
module MysqlStatements {
  import opened Common
  import opened QueryClassifier
  import opened WriteGuard

  const InsertTail: string := "INTO `engines` (`car_id`) VALUES ('138853948594')"
  const UpdateTail: string := "`engines` SET `engines`.`car_id` = '9989' WHERE `engines`.`car_id` = '138853948594'"
  const DeleteTail: string := "FROM `engines` where `engines`.`car_id` = '138853948594'"
  const ReplaceTail: string := "INTO `engines` SET `engines`.`car_id` = '249823948'"
  const SelectTail: string := "`engines`.* FROM `engines` WHERE `engines`.`car_id` = '138853948594'"

  /** A statement made of a keyword, a blank and the rest. */
  function Statement(word: string, tail: string): (sql: string)
    ensures StartsWith(sql, word) && |sql| == |word| + 1 + |tail| && sql[|word|] == ' '
  {
    word + (" " + tail)
  }

  /** The SELECT behind a query-log comment, two parentheses and white space. */
  const AnnotatedSelect: string := "/*action:index*/(\n( " + Statement("SELECT", SelectTail + " ) )")

  /** A keyword followed by a blank: the keyword does not run into the tail. */
  lemma RefusedAfterBlank(word: string, tail: string)
    requires word in WriteKeywords
    ensures CheckQuery(Statement(word, tail), true)
            == Raised(ReadOnlyError(ReadOnlyMessagePrefix + Statement(word, tail)))
  {
    WriteKeywordsAreNotReads(word);
    WriteStatementRejected([], word, " " + tail);
    assert Render([]) + (word + (" " + tail)) == Statement(word, tail);
  }

  lemma RunsAfterBlank(word: string, tail: string)
    requires word in ReadKeywords
    ensures CheckQuery(Statement(word, tail), true) == Returned(())
  {
    ReadKeywordIsWord(word);
    ReadStatementAllowed([], word, " " + tail, true);
    assert Render([]) + (word + (" " + tail)) == Statement(word, tail);
  }

  /** INSERT, UPDATE, DELETE and REPLACE statements are refused while
      preventing, with the statement in the message. */
  lemma AdapterWritesRefused()
    ensures CheckQuery(Statement("INSERT", InsertTail), true)
            == Raised(ReadOnlyError(ReadOnlyMessagePrefix + Statement("INSERT", InsertTail)))
    ensures CheckQuery(Statement("UPDATE", UpdateTail), true)
            == Raised(ReadOnlyError(ReadOnlyMessagePrefix + Statement("UPDATE", UpdateTail)))
    ensures CheckQuery(Statement("DELETE", DeleteTail), true)
            == Raised(ReadOnlyError(ReadOnlyMessagePrefix + Statement("DELETE", DeleteTail)))
    ensures CheckQuery(Statement("REPLACE", ReplaceTail), true)
            == Raised(ReadOnlyError(ReadOnlyMessagePrefix + Statement("REPLACE", ReplaceTail)))
  {
    RefusedAfterBlank("INSERT", InsertTail);
    RefusedAfterBlank("UPDATE", UpdateTail);
    RefusedAfterBlank("DELETE", DeleteTail);
    RefusedAfterBlank("REPLACE", ReplaceTail);
  }

  /** SELECT, SHOW, SET, DESCRIBE, DESC and USE statements run while preventing. */
  lemma AdapterReadsRun(dbName: string)
    ensures CheckQuery(Statement("SELECT", SelectTail), true) == Returned(())
    ensures CheckQuery(Statement("SHOW", "FULL FIELDS FROM `engines`"), true) == Returned(())
    ensures CheckQuery(Statement("SET", "NAMES utf8mb4 COLLATE utf8mb4_unicode_ci"), true) == Returned(())
    ensures CheckQuery(Statement("DESCRIBE", "engines"), true) == Returned(())
    ensures CheckQuery(Statement("DESC", "engines"), true) == Returned(())
    ensures CheckQuery(Statement("USE", dbName), true) == Returned(())
  {
    RunsAfterBlank("SELECT", SelectTail);
    RunsAfterBlank("SHOW", "FULL FIELDS FROM `engines`");
    RunsAfterBlank("SET", "NAMES utf8mb4 COLLATE utf8mb4_unicode_ci");
    RunsAfterBlank("DESCRIBE", "engines");
    RunsAfterBlank("DESC", "engines");
    RunsAfterBlank("USE", dbName);
  }

  /** The fillers in front of the annotated SELECT. */
  const Annotation: seq<Filler> := [Comment("action:index"), OpenParen, Blank('\n'), OpenParen, Blank(' ')]

  lemma AnnotationRendering()
    ensures ValidFillers(Annotation)
    ensures Render(Annotation) == "/*action:index*/(\n( "
  {
    assert ValidFiller(Comment("action:index"));
    RenderFive(Comment("action:index"), OpenParen, Blank('\n'), OpenParen, Blank(' '));
  }

  lemma RenderFive(a: Filler, b: Filler, c: Filler, d: Filler, e: Filler)
    ensures Render([a, b, c, d, e])
            == RenderFiller(a) + (RenderFiller(b) + (RenderFiller(c) + (RenderFiller(d) + (RenderFiller(e) + ""))))
  {
    var fs := [a, b, c, d, e];
    RenderCons(e, []);
    assert fs[4..] == [e];
    RenderCons(d, fs[4..]);
    assert fs[3..] == [d] + fs[4..];
    RenderCons(c, fs[3..]);
    assert fs[2..] == [c] + fs[3..];
    RenderCons(b, fs[2..]);
    assert fs[1..] == [b] + fs[2..];
    RenderCons(a, fs[1..]);
    assert fs == [a] + fs[1..];
  }

  /** A SELECT behind a comment, parentheses and white space still runs. */
  lemma AnnotatedSelectRuns()
    ensures CheckQuery(AnnotatedSelect, true) == Returned(())
  {
    AnnotationRendering();
    ReadKeywordIsWord("SELECT");
    ReadStatementAllowed(Annotation, "SELECT", " " + (SelectTail + " ) )"), true);
  }

  /** An EXPLAIN and the bare BEGIN and COMMIT around an empty transaction run
      while writes are prevented. */
  lemma ExplainAndTransactionsRun(query: string)
    ensures CheckQuery(Statement("EXPLAIN", query), true) == Returned(())
    ensures CheckQuery("BEGIN", true) == Returned(())
    ensures CheckQuery("COMMIT", true) == Returned(())
  {
    RunsAfterBlank("EXPLAIN", query);
    BareKeywordRuns("BEGIN");
    BareKeywordRuns("COMMIT");
  }

  /** A read keyword on its own runs while writes are prevented. */
  lemma BareKeywordRuns(word: string)
    requires word in ReadKeywords
    ensures CheckQuery(word, true) == Returned(())
  {
    ReadKeywordIsWord(word);
    ReadStatementAllowed([], word, "", true);
    assert Render([]) + (word + "") == word;
  }
}
