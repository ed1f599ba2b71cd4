/**
 * The encoding/csv reader and writer with their default settings (comma, no comments, strict quotes), and the
 * law that ties them together: reading a written record gives its fields back, except that the reader turns
 * every CR LF inside a field into LF.
 */
module Csv {
  import opened Text

  // ---- csv.Reader ----

  /** Every CR that is followed by LF is dropped. */
  function DropPairs(s: string): (r: string)
    ensures |r| <= |s|
  {
    if s == "" then ""
    else if s[0] == '\r' && |s| > 1 && s[1] == '\n' then DropPairs(s[1..])
    else [s[0]] + DropPairs(s[1..])
  }

  /** The lines as readLine delivers them: CR LF ends a line like LF, and one CR before the end of input is dropped. */
  function Lines(s: string): string {
    var r := DropPairs(s);
    if r != "" && r[|r| - 1] == '\r' then r[..|r| - 1] else r
  }

  predicate EndsField(s: string) { s == "" || s[0] == ',' || s[0] == '\n' }

  /** An unquoted field and the text after it; a quote inside is an error. */
  function ReadBare(s: string): (r: Option<(string, string)>)
    ensures r.Some? ==> |r.value.1| <= |s| && EndsField(r.value.1)
  {
    if EndsField(s) then Some(("", s))
    else if s[0] == '"' then None
    else
      var r := ReadBare(s[1..]);
      if r.None? then None else Some(([s[0]] + r.value.0, r.value.1))
  }

  /** The rest of a quoted field: "" stands for a quote, and the closing quote must end the field. */
  function ReadQuoted(s: string): (r: Option<(string, string)>)
    ensures r.Some? ==> |r.value.1| <= |s| && EndsField(r.value.1)
    decreases |s|
  {
    if s == "" then None
    else if s[0] == '"' && |s| > 1 && s[1] == '"' then
      var r := ReadQuoted(s[2..]);
      if r.None? then None else Some(("\"" + r.value.0, r.value.1))
    else if s[0] == '"' then
      if EndsField(s[1..]) then Some(("", s[1..])) else None
    else
      var r := ReadQuoted(s[1..]);
      if r.None? then None else Some(([s[0]] + r.value.0, r.value.1))
  }

  function ReadField(s: string): (r: Option<(string, string)>)
    ensures r.Some? ==> |r.value.1| <= |s| && EndsField(r.value.1)
  {
    if s != "" && s[0] == '"' then ReadQuoted(s[1..]) else ReadBare(s)
  }

  /** readRecord, from the first field on: the fields of one record and the text after it. */
  function ReadRecord(s: string): (r: Option<(seq<string>, string)>)
    ensures r.Some? && s != "" ==> |r.value.1| < |s|
    ensures r.Some? && s == "" ==> r.value.1 == ""
    decreases |s|
  {
    var field := ReadField(s);
    if field.None? then None
    else if field.value.1 != "" && field.value.1[0] == ',' then
      var rest := ReadRecord(field.value.1[1..]);
      if rest.None? then None else Some(([field.value.0] + rest.value.0, rest.value.1))
    else Some(([field.value.0], if field.value.1 == "" then "" else field.value.1[1..]))
  }

  /** ReadAll on the lines of the input; empty lines are no records. */
  function ReadRecords(s: string): Option<seq<seq<string>>>
    decreases |s|
  {
    if s == "" then Some([])
    else if s[0] == '\n' then ReadRecords(s[1..])
    else
      var record := ReadRecord(s);
      if record.None? then None
      else
        var rest := ReadRecords(record.value.1);
        if rest.None? then None else Some([record.value.0] + rest.value)
  }

  /** csv.NewReader(strings.NewReader(s)).ReadAll(). */
  function ReadAll(s: string): Option<seq<seq<string>>> { ReadRecords(Lines(s)) }

  // ---- csv.Writer ----

  predicate IsSpecial(c: char) { c == '\n' || c == '\r' || c == '"' || c == ',' }

  predicate NeedsQuotes(field: string) {
    field != "" && (field == "\\." || (exists i | 0 <= i < |field| :: IsSpecial(field[i])) || IsSpace(field[0]))
  }

  /** The text of a quoted field: every quote is doubled. */
  function Escape(s: string): string {
    if s == "" then ""
    else if s[0] == '"' then "\"" + ("\"" + Escape(s[1..]))
    else [s[0]] + Escape(s[1..])
  }

  function WriteField(field: string): string {
    if NeedsQuotes(field) then "\"" + Escape(field) + "\"" else field
  }

  /** formatCSVFields: one record, without the line end that Writer.Write puts after it. */
  function WriteRecord(fields: seq<string>): string {
    if fields == [] then ""
    else if |fields| == 1 then WriteField(fields[0])
    else WriteField(fields[0]) + "," + WriteRecord(fields[1..])
  }

  /** A field is quoted exactly if it holds a line end, a quote or a comma, begins with a space, or is the text "\." */
  lemma PlainFieldsStayPlain(field: string)
    ensures WriteField(field) != field <==>
            '\n' in field || '\r' in field || '"' in field || ',' in field || field == "\\." || (field != "" && IsSpace(field[0]))
  {
    EscapeIsNoShorter(field);
  }

  lemma {:induction false} EscapeIsNoShorter(field: string)
    ensures |Escape(field)| >= |field|
  {
    if field != "" {
      EscapeIsNoShorter(field[1..]);
    }
  }

  // ---- Reading back what was written ----

  lemma {:induction false} DropPairsApart(a: string, b: string)
    requires b == "" || b[0] != '\n'
    ensures DropPairs(a + b) == DropPairs(a) + DropPairs(b)
  {
    if a == "" {
      assert a + b == b;
    } else {
      assert (a + b)[1..] == a[1..] + b;
      DropPairsApart(a[1..], b);
    }
  }

  ghost predicate NoPair(s: string) { forall i, j | 0 <= i && j == i + 1 && j < |s| :: !(s[i] == '\r' && s[j] == '\n') }

  /** What DropPairs leaves alone: exactly the texts without CR LF. */
  lemma {:induction false} DropPairsFixes(s: string)
    ensures DropPairs(s) == s <==> NoPair(s)
  {
    if s != "" {
      DropPairsFixes(s[1..]);
      if NoPair(s) {
        forall i, j | 0 <= i && j == i + 1 && j < |s[1..]| ensures !(s[1..][i] == '\r' && s[1..][j] == '\n') {
          assert s[1..][i] == s[i + 1] && s[1..][j] == s[j + 1];
        }
        assert DropPairs(s) == [s[0]] + s[1..];
      } else if !(s[0] == '\r' && |s| > 1 && s[1] == '\n') {
        var i, j :| 0 <= i && j == i + 1 && j < |s| && s[i] == '\r' && s[j] == '\n';
        assert s[1..][i - 1] == s[i] && s[1..][j - 1] == s[j];
        assert DropPairs(s)[1..] == DropPairs(s[1..]);
      }
    }
  }

  lemma DropPairsCons(c: char, t: string)
    ensures DropPairs([c] + t) == if c == '\r' && t != "" && t[0] == '\n' then DropPairs(t) else [c] + DropPairs(t)
  {
    assert ([c] + t)[1..] == t;
  }

  lemma EscapeCons(c: char, t: string)
    ensures Escape([c] + t) == if c == '"' then "\"" + ("\"" + Escape(t)) else [c] + Escape(t)
  {
    assert ([c] + t)[1..] == t;
  }

  lemma {:induction false} EscapeKeepsPairs(s: string)
    ensures DropPairs(Escape(s)) == Escape(DropPairs(s))
  {
    if s != "" {
      var c, t := s[0], s[1..];
      var e := Escape(t);
      assert s == [c] + t;
      EscapeKeepsPairs(t);
      DropPairsCons(c, t);
      EscapeCons(c, t);
      EscapeCons(c, DropPairs(t));
      if c == '"' {
        DropPairsCons('"', "\"" + e);
        DropPairsCons('"', e);
      } else {
        DropPairsCons(c, e);
      }
    }
  }

  /** e is a way to write field f: as it is, or quoted. */
  ghost predicate Writes(e: string, f: string) {
    || (e == f && (forall i | 0 <= i < |f| :: f[i] != '"' && f[i] != ',' && f[i] != '\n'))
    || e == "\"" + Escape(f) + "\""
  }

  lemma {:induction false} ReadBareField(f: string, rest: string)
    requires EndsField(rest) && forall i | 0 <= i < |f| :: f[i] != '"' && f[i] != ',' && f[i] != '\n'
    ensures ReadBare(f + rest) == Some((f, rest))
  {
    if f == "" {
      assert f + rest == rest;
    } else {
      assert (f + rest)[1..] == f[1..] + rest;
      ReadBareField(f[1..], rest);
      assert f == [f[0]] + f[1..];
    }
  }

  lemma {:induction false} ReadQuotedField(f: string, rest: string)
    requires EndsField(rest)
    ensures ReadQuoted(Escape(f) + "\"" + rest) == Some((f, rest))
  {
    var s := Escape(f) + "\"" + rest;
    if f == "" {
      assert s == "\"" + rest;
      assert s[1..] == rest;
    } else {
      ReadQuotedField(f[1..], rest);
      var t := Escape(f[1..]) + "\"" + rest;
      assert f == [f[0]] + f[1..];
      if f[0] == '"' {
        assert s == "\"\"" + t && s[2..] == t;
      } else {
        assert s == [f[0]] + t && s[1..] == t;
      }
    }
  }

  lemma ReadWrittenField(e: string, f: string, rest: string)
    requires Writes(e, f) && EndsField(rest)
    ensures ReadField(e + rest) == Some((f, rest))
  {
    if e == "\"" + Escape(f) + "\"" {
      assert e + rest == "\"" + (Escape(f) + "\"" + rest);
      ReadQuotedField(f, rest);
    } else {
      ReadBareField(f, rest);
    }
  }

  function Join(es: seq<string>): string {
    if es == [] then "" else if |es| == 1 then es[0] else es[0] + "," + Join(es[1..])
  }

  lemma {:induction false} ReadWrittenRecord(es: seq<string>, fs: seq<string>)
    requires |es| == |fs| > 0 && forall i | 0 <= i < |es| :: Writes(es[i], fs[i])
    ensures ReadRecord(Join(es)) == Some((fs, ""))
  {
    if |es| == 1 {
      ReadWrittenField(es[0], fs[0], "");
      assert es[0] + "" == es[0] && fs == [fs[0]];
    } else {
      var rest := "," + Join(es[1..]);
      assert Join(es) == es[0] + rest && rest[1..] == Join(es[1..]);
      ReadWrittenField(es[0], fs[0], rest);
      ReadWrittenRecord(es[1..], fs[1..]);
      assert fs == [fs[0]] + fs[1..];
    }
  }

  function DropAll(fields: seq<string>): (r: seq<string>)
    ensures |r| == |fields| && forall i | 0 <= i < |r| :: r[i] == DropPairs(fields[i])
  {
    if fields == [] then [] else [DropPairs(fields[0])] + DropAll(fields[1..])
  }

  /** The lines of a written field write the field without its CR LF pairs. */
  lemma WrittenFieldLines(f: string)
    ensures Writes(DropPairs(WriteField(f)), DropPairs(f))
    ensures WriteField(f) != "" ==> WriteField(f)[0] != '\n' && WriteField(f)[0] != '\r' && WriteField(f)[|WriteField(f)| - 1] != '\r'
  {
    if NeedsQuotes(f) {
      EscapeKeepsPairs(f);
      DropPairsApart(Escape(f), "\"");
      DropPairsApart("\"", "");
      var e := Escape(f) + "\"";
      assert WriteField(f) == "\"" + e && ("\"" + e)[1..] == e;
      assert DropPairs("\"") == "\"";
      assert DropPairs("\"" + e) == "\"" + DropPairs(e);
      assert DropPairs(WriteField(f)) == "\"" + Escape(DropPairs(f)) + "\"";
    } else {
      forall i | 0 <= i < |f| ensures !IsSpecial(f[i]) {
      }
      DropPairsFixes(f);
    }
  }

  /** A record in the writer's layout: the field texts with commas between them. */
  lemma {:induction false} WrittenRecordLines(fields: seq<string>) returns (es: seq<string>)
    ensures |es| == |fields| && DropPairs(WriteRecord(fields)) == Join(es)
    ensures forall i | 0 <= i < |es| :: Writes(es[i], DropAll(fields)[i])
  {
    if fields == [] {
      es := [];
    } else {
      var head := WriteField(fields[0]);
      WrittenFieldLines(fields[0]);
      if |fields| == 1 {
        es := [DropPairs(head)];
      } else {
        var rest := WrittenRecordLines(fields[1..]);
        var after := WriteRecord(fields[1..]);
        es := [DropPairs(head)] + rest;
        DropPairsCons(',', after);
        DropPairsApart(head, "," + after);
        JoinCons(DropPairs(head), rest);
        assert head + "," + after == head + ("," + after);
      }
    }
  }

  lemma JoinCons(e: string, es: seq<string>)
    requires es != []
    ensures Join([e] + es) == e + ("," + Join(es))
  {
    assert ([e] + es)[1..] == es;
  }

  lemma {:induction false} WrittenRecordEnds(fields: seq<string>)
    ensures WriteRecord(fields) == "" <==> fields == [] || fields == [""]
    ensures var s := WriteRecord(fields); s != "" ==> s[0] != '\n' && s[0] != '\r' && s[|s| - 1] != '\r'
  {
    if fields != [] {
      WrittenFieldLines(fields[0]);
      WrittenRecordEnds(fields[1..]);
      assert |fields| == 1 ==> fields == [fields[0]];
    }
  }

  lemma {:induction false} DropPairsKeepsEnds(s: string)
    requires s != ""
    ensures DropPairs(s) != "" && DropPairs(s)[|DropPairs(s)| - 1] == s[|s| - 1]
    ensures s[0] != '\r' ==> DropPairs(s)[0] == s[0]
  {
    if |s| > 1 {
      DropPairsKeepsEnds(s[1..]);
    }
  }

  lemma OneRecord(s: string, fields: seq<string>)
    requires s != "" && s[0] != '\n' && ReadRecord(s) == Some((fields, ""))
    ensures ReadRecords(s) == Some([fields])
  {
    assert ReadRecords("") == Some([]);
    assert [fields] + [] == [fields];
  }

  /** Reading a written record gives one record: the fields, with LF for every CR LF. */
  lemma WrittenRecordReadsBack(fields: seq<string>)
    requires fields != [] && fields != [""]
    ensures ReadAll(WriteRecord(fields)) == Some([DropAll(fields)])
  {
    var s := WriteRecord(fields);
    var es := WrittenRecordLines(fields);
    WrittenRecordEnds(fields);
    DropPairsKeepsEnds(s);
    assert Lines(s) == Join(es);
    ReadWrittenRecord(es, DropAll(fields));
    OneRecord(Join(es), DropAll(fields));
  }

  /** So a written record reads back as it was exactly when no field contains CR LF. */
  lemma ReadsBackExactly(fields: seq<string>)
    requires fields != [] && fields != [""]
    ensures ReadAll(WriteRecord(fields)) == Some([fields]) <==> forall f | f in fields :: NoPair(f)
  {
    WrittenRecordReadsBack(fields);
    forall f | f in fields ensures NoPair(f) <==> DropPairs(f) == f {
      DropPairsFixes(f);
    }
    if DropAll(fields) == fields {
      forall f | f in fields ensures DropPairs(f) == f {
        var i :| 0 <= i < |fields| && fields[i] == f;
        assert DropAll(fields)[i] == DropPairs(fields[i]);
      }
    }
  }

  // ---- What a text that is read must say ----

  lemma {:induction false} BareSaysTheField(s: string)
    requires ReadBare(s).Some?
    ensures var (f, rest) := ReadBare(s).value;
            s == f + rest && EndsField(rest) && forall i | 0 <= i < |f| :: f[i] != '"' && f[i] != ',' && f[i] != '\n'
  {
    if !EndsField(s) {
      BareSaysTheField(s[1..]);
    }
  }

  lemma {:induction false} QuotedSaysTheField(s: string)
    requires ReadQuoted(s).Some?
    ensures var (f, rest) := ReadQuoted(s).value; s == Escape(f) + "\"" + rest && EndsField(rest)
    decreases |s|
  {
    if s[0] != '"' {
      QuotedSaysTheField(s[1..]);
      EscapeCons(s[0], ReadQuoted(s[1..]).value.0);
    } else if |s| > 1 && s[1] == '"' {
      QuotedSaysTheField(s[2..]);
      EscapeCons('"', ReadQuoted(s[2..]).value.0);
    } else {
      assert s == "\"" + s[1..];
    }
  }

  lemma FieldSays(s: string) returns (e: string)
    requires ReadField(s).Some?
    ensures s == e + ReadField(s).value.1 && Writes(e, ReadField(s).value.0)
  {
    var (f, rest) := ReadField(s).value;
    if s != "" && s[0] == '"' {
      QuotedSaysTheField(s[1..]);
      e := "\"" + Escape(f) + "\"";
      assert s == "\"" + (Escape(f) + "\"" + rest);
    } else {
      BareSaysTheField(s);
      e := f;
    }
  }

  /** s writes the fields as es, with commas between them, and then rest after a line end, or nothing. */
  ghost predicate Spells(s: string, es: seq<string>, fields: seq<string>, rest: string) {
    && |es| == |fields| > 0 && (forall i | 0 <= i < |es| :: Writes(es[i], fields[i]))
    && (s == Join(es) + "\n" + rest || (s == Join(es) && rest == ""))
  }

  /** A record is read only from a text that writes its fields, bare or quoted. */
  lemma {:induction false} RecordSaysItsFields(s: string) returns (es: seq<string>)
    requires ReadRecord(s).Some?
    ensures Spells(s, es, ReadRecord(s).value.0, ReadRecord(s).value.1)
    decreases |s|
  {
    var (field, after) := ReadField(s).value;
    var e := FieldSays(s);
    if after != "" && after[0] == ',' {
      var more := RecordSaysItsFields(after[1..]);
      assert after == "," + after[1..];
      SpellsMore(e, field, more, ReadRecord(after[1..]).value.0, after[1..], ReadRecord(after[1..]).value.1);
      es := [e] + more;
    } else {
      SpellsLast(e, field, after);
      es := [e];
    }
  }

  lemma SpellsLast(e: string, field: string, after: string)
    requires Writes(e, field) && (after == "" || after[0] == '\n')
    ensures Spells(e + after, [e], [field], if after == "" then "" else after[1..])
  {
    assert after != "" ==> e + after == e + "\n" + after[1..];
    assert after == "" ==> e + after == e;
  }

  lemma SpellsMore(e: string, field: string, es: seq<string>, fields: seq<string>, after: string, rest: string)
    requires Writes(e, field) && Spells(after, es, fields, rest)
    ensures Spells(e + ("," + after), [e] + es, [field] + fields, rest)
  {
    JoinCons(e, es);
    var j := Join(es);
    if after == j + "\n" + rest {
      assert e + ("," + (j + "\n" + rest)) == e + ("," + j) + "\n" + rest;
    }
  }
}
