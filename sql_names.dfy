/**
 * SQL identifier helpers of the SQL cube: `verify_sql_name`, which checks a
 * name against the one-character pattern `[^0-9a-zA-Z]` with `re.match`,
 * and `sql_name_cleanup`, which replaces every maximal run of characters
 * outside `[0-9a-zA-Z]` by one `_`.
 */
module SqlNames {
  import opened Common

  const TABLE_NAME_MAX_LEN: nat := 50

  /** Membership in the character class `[0-9a-zA-Z]`. */
  predicate IsAlnum(ch: char)
  {
    ('0' <= ch <= '9') || ('a' <= ch <= 'z') || ('A' <= ch <= 'Z')
  }

  /**
   * `verify_sql_name`: `re.match` anchors the pattern at the start only and
   * the pattern is a single character, so only the first character is
   * checked; the empty name passes.
   */
  function VerifySqlName(name: string): (r: Result<string>)
    ensures r.Ok? <==> name == [] || IsAlnum(name[0])
    ensures r.Ok? ==> r.value == name
    ensures r.Err? ==> r.error == InvalidIdentifier(name)
  {
    if |name| > 0 && !IsAlnum(name[0]) then Err(InvalidIdentifier(name)) else Ok(name)
  }

  /** Characters after the first are never inspected: a name with an alphanumeric head always passes. */
  lemma VerifyChecksFirstOnly(head: char, rest: string)
    requires IsAlnum(head)
    ensures VerifySqlName([head] + rest) == Ok([head] + rest)
  {
  }

  /** For instance a name carrying a statement separator and a placeholder passes. */
  lemma VerifyAcceptsSeparator()
    ensures VerifySqlName("a; DROP TABLE t --%s").Ok?
    ensures VerifySqlName(" a").Err?
  {
  }

  /** `re.sub('[^0-9a-zA-Z]+', '_', s)`, with `inRun` telling whether a run has already been replaced. */
  function CleanupFrom(s: string, inRun: bool): (r: string)
    ensures forall i :: 0 <= i < |r| ==> IsAlnum(r[i]) || r[i] == '_'
    ensures inRun && r != [] ==> r[0] != '_'
    ensures !inRun && s != [] ==> r != [] && (r[0] == '_' <==> !IsAlnum(s[0]))
  {
    if s == [] then []
    else if IsAlnum(s[0]) then [s[0]] + CleanupFrom(s[1..], false)
    else if inRun then CleanupFrom(s[1..], true)
    else ['_'] + CleanupFrom(s[1..], true)
  }

  /** `sql_name_cleanup(name)`. */
  function SqlNameCleanup(name: string): (r: string)
    ensures forall i :: 0 <= i < |r| ==> IsAlnum(r[i]) || r[i] == '_'
  {
    CleanupFrom(name, false)
  }

  /** The alphanumeric characters of a string, in order. */
  function Alnums(s: string): (r: string)
    ensures forall i :: 0 <= i < |r| ==> IsAlnum(r[i])
  {
    if s == [] then [] else if IsAlnum(s[0]) then [s[0]] + Alnums(s[1..]) else Alnums(s[1..])
  }

  /** No two underscores next to each other. */
  predicate NoDoubleUnderscore(s: string)
  {
    forall i :: 0 <= i < |s| - 1 ==> !(s[i] == '_' && s[i + 1] == '_')
  }

  /** A name that cleanup leaves as it is: only `[0-9a-zA-Z_]` and no `__`. */
  predicate Clean(s: string)
  {
    (forall i :: 0 <= i < |s| ==> IsAlnum(s[i]) || s[i] == '_') && NoDoubleUnderscore(s)
  }

  lemma {:induction false} CleanupFromKeepsAlnums(s: string, inRun: bool)
    ensures Alnums(CleanupFrom(s, inRun)) == Alnums(s)
  {
    if s != [] {
      CleanupFromKeepsAlnums(s[1..], !IsAlnum(s[0]));
      var rest := CleanupFrom(s[1..], !IsAlnum(s[0]));
      if IsAlnum(s[0]) {
        assert ([s[0]] + rest)[1..] == rest;
      } else if !inRun {
        assert (['_'] + rest)[1..] == rest;
      }
    }
  }

  lemma {:induction false} CleanupFromNoDouble(s: string, inRun: bool)
    ensures NoDoubleUnderscore(CleanupFrom(s, inRun))
  {
    if s != [] {
      CleanupFromNoDouble(s[1..], !IsAlnum(s[0]));
      var rest := CleanupFrom(s[1..], !IsAlnum(s[0]));
      var r := CleanupFrom(s, inRun);
      if IsAlnum(s[0]) || !inRun {
        assert r[1..] == rest;
        forall i | 0 <= i < |r| - 1
          ensures !(r[i] == '_' && r[i + 1] == '_')
        {
          if i > 0 { assert r[i] == rest[i - 1] && r[i + 1] == rest[i]; }
        }
      }
    }
  }

  /**
   * What `sql_name_cleanup` produces: only characters of `[0-9a-zA-Z_]`,
   * the input's alphanumeric characters in order and no others, never two
   * underscores in a row, and a leading `_` exactly when the input starts
   * with a character outside `[0-9a-zA-Z]`.
   */
  lemma CleanupShape(name: string)
    ensures Clean(SqlNameCleanup(name))
    ensures Alnums(SqlNameCleanup(name)) == Alnums(name)
    ensures (SqlNameCleanup(name) != [] && SqlNameCleanup(name)[0] == '_') <==> (name != [] && !IsAlnum(name[0]))
  {
    CleanupFromKeepsAlnums(name, false);
    CleanupFromNoDouble(name, false);
  }

  /** A clean name is left unchanged, whichever run state the scan is in when it does not start with `_`. */
  lemma {:induction false} CleanFixed(s: string, inRun: bool)
    requires Clean(s)
    requires inRun ==> s == [] || s[0] != '_'
    ensures CleanupFrom(s, inRun) == s
  {
    if s != [] {
      var t := s[1..];
      assert Clean(t) by {
        forall i | 0 <= i < |t| - 1 ensures !(t[i] == '_' && t[i + 1] == '_') {
          assert t[i] == s[i + 1] && t[i + 1] == s[i + 2];
        }
      }
      if s[0] == '_' && t != [] {
        assert !(s[0] == '_' && s[1] == '_');
      }
      CleanFixed(t, !IsAlnum(s[0]));
      assert s == [s[0]] + t;
    }
  }

  /** The names `sql_name_cleanup` leaves unchanged are exactly the clean ones. */
  lemma CleanupFixedPoints(name: string)
    ensures SqlNameCleanup(name) == name <==> Clean(name)
  {
    CleanupShape(name);
    if Clean(name) {
      CleanFixed(name, false);
    }
  }

  /** `sql_name_cleanup` is idempotent. */
  lemma CleanupIdempotent(name: string)
    ensures SqlNameCleanup(SqlNameCleanup(name)) == SqlNameCleanup(name)
  {
    CleanupShape(name);
    CleanFixed(SqlNameCleanup(name), false);
  }

  /**
   * A cleaned name passes `verify_sql_name` exactly when the original name
   * is empty or starts with an alphanumeric character: a name that starts
   * with anything else becomes `_...`, which the check rejects.
   */
  lemma CleanedNameVerifies(name: string)
    ensures VerifySqlName(SqlNameCleanup(name)).Ok? <==> name == [] || IsAlnum(name[0])
  {
    CleanupShape(name);
  }

  /** The table name of `FromCube`: the cleaned dataset id, cut to `TABLE_NAME_MAX_LEN`. */
  function TableName(id: string): (t: string)
    ensures |t| == if |SqlNameCleanup(id)| < TABLE_NAME_MAX_LEN then |SqlNameCleanup(id)| else TABLE_NAME_MAX_LEN
    ensures t == SqlNameCleanup(id)[..|t|]
  {
    var full := SqlNameCleanup(id);
    if |full| <= TABLE_NAME_MAX_LEN then full else full[..TABLE_NAME_MAX_LEN]
  }

  /** A table name consists of `[0-9a-zA-Z_]` without `__`. */
  lemma TableNameClean(id: string)
    ensures Clean(TableName(id))
  {
    CleanupShape(id);
  }
}
