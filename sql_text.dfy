/**
 * The fixed pieces of SQL text the cube builds its queries from, and the
 * count of `%` characters, by which the driver's parameter substitution
 * finds its placeholders.
 */
module SqlText {
  /**
   * The sub-query of a where clause part, up to its placeholders. It is
   * written word by word so that `%`-freedom is checked one short literal at
   * a time.
   */
  const IN_SURROGATES := " IN (SELECT " + "surrogate " + "from " + "_categories " + "WHERE name " + "IN ("

  /** The ordering of the row id query. */
  const ORDER_BY := " ORDER BY _row_number"

  /** The number of `%` characters in a string. */
  function Percents(s: string): nat
  {
    if s == [] then 0 else (if s[0] == '%' then 1 else 0) + Percents(s[1..])
  }

  lemma {:induction false} PercentsMultiset(s: string)
    ensures Percents(s) == multiset(s)['%']
  {
    if s != [] {
      PercentsMultiset(s[1..]);
      assert s == [s[0]] + s[1..];
    }
  }

  lemma PercentsAppend(a: string, b: string)
    ensures Percents(a + b) == Percents(a) + Percents(b)
  {
    PercentsMultiset(a);
    PercentsMultiset(b);
    PercentsMultiset(a + b);
  }

  lemma {:induction false} PercentsAbsent(s: string)
    requires '%' !in s
    ensures Percents(s) == 0
  {
    if s != [] {
      assert s[0] in s;
      assert forall x :: x in s[1..] ==> x in s;
      PercentsAbsent(s[1..]);
    }
  }

  lemma NoPercentInSubQuery()
    ensures '%' !in IN_SURROGATES
  {
  }

  lemma NoPercentInKeywords()
    ensures '%' !in ORDER_BY && '%' !in "SELECT " && '%' !in " FROM " && '%' !in " WHERE "
    ensures '%' !in " AND " && '%' !in "," && '%' !in "))" && '%' !in " LIMIT " && '%' !in " OFFSET "
  {
  }

  lemma PlaceholderTexts()
    ensures Percents("%s") == 1
    ensures " LIMIT %s" == " LIMIT " + "%s" && " OFFSET %s" == " OFFSET " + "%s"
  {
  }

  lemma PercentsOfSubQuery()
    ensures Percents(IN_SURROGATES) == 0 && Percents(ORDER_BY) == 0
  {
    NoPercentInSubQuery();
    NoPercentInKeywords();
    PercentsAbsent(IN_SURROGATES);
    PercentsAbsent(ORDER_BY);
  }

  lemma PercentsOfClauses()
    ensures Percents("SELECT ") == 0 && Percents(" FROM ") == 0 && Percents(" WHERE ") == 0
  {
    NoPercentInKeywords();
    PercentsAbsent("SELECT ");
    PercentsAbsent(" FROM ");
    PercentsAbsent(" WHERE ");
  }

  lemma PercentsOfSeparators()
    ensures Percents(" AND ") == 0 && Percents(",") == 0 && Percents("))") == 0
  {
    NoPercentInKeywords();
    PercentsAbsent(" AND ");
    PercentsAbsent(",");
    PercentsAbsent("))");
  }

  lemma PercentsOfLimits()
    ensures Percents("%s") == 1 && Percents(" LIMIT %s") == 1 && Percents(" OFFSET %s") == 1
  {
    NoPercentInKeywords();
    PlaceholderTexts();
    PercentsAbsent(" LIMIT ");
    PercentsAbsent(" OFFSET ");
    PercentsAppend(" LIMIT ", "%s");
    PercentsAppend(" OFFSET ", "%s");
  }

  /** The fixed pieces of SQL text hold no `%` other than their placeholders. */
  lemma PercentsOfFixedText()
    ensures Percents(IN_SURROGATES) == 0 && Percents(ORDER_BY) == 0
    ensures Percents("SELECT ") == 0 && Percents(" FROM ") == 0 && Percents(" WHERE ") == 0
    ensures Percents(" AND ") == 0 && Percents(",") == 0 && Percents("))") == 0
    ensures Percents("%s") == 1 && Percents(" LIMIT %s") == 1 && Percents(" OFFSET %s") == 1
  {
    PercentsOfSubQuery();
    PercentsOfClauses();
    PercentsOfSeparators();
    PercentsOfLimits();
  }
}
