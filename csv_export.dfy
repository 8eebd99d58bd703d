/** `CSVExportVisitor`: a header line, then one line per visited record, with
    title and description escaped in part as section 2 of RFC 4180 asks. */
module CsvExport {
  import opened Wrappers
  import Priorities
  import TaskStates
  import opened Tasks
  import Text

  const Header: string := "id,title,description,state,priority\n"

  /** `s.replace("\"", "\"\"")`. */
  function DoubleQuotes(s: string): (r: string)
    ensures forall c :: c != '"' ==> (c in r <==> c in s)
  {
    if s == [] then []
    else (if s[0] == '"' then "\"\"" else [s[0]]) + DoubleQuotes(s[1..])
  }

  /** `escape(s)`: null becomes empty; quotes are doubled; the result is
      wrapped in quotes when it holds a comma or a line feed. */
  function Escape(s: Nullable<string>): (r: string)
    ensures s.Null? ==> r == ""
    ensures s.NonNull? && (',' in s.value || '\n' in s.value) ==> r == "\"" + DoubleQuotes(s.value) + "\""
    ensures s.NonNull? && !(',' in s.value || '\n' in s.value) ==> r == DoubleQuotes(s.value)
  {
    if s.Null? then ""
    else
      var x := DoubleQuotes(s.value);
      if Text.Contains(x, ",") || Text.Contains(x, "\n") then
        ContainsChar(x, ',');
        ContainsChar(x, '\n');
        "\"" + x + "\""
      else
        ContainsChar(x, ',');
        ContainsChar(x, '\n');
        x
  }

  /** `x.contains(String.valueOf(c))` is membership of `c`. */
  lemma ContainsChar(x: string, c: char)
    ensures Text.Contains(x, [c]) <==> c in x
  {
    Text.ContainsIffOccurs(x, [c]);
    if c in x {
      var i :| 0 <= i < |x| && x[i] == c;
      assert Text.OccursAt(x, [c], i);
    }
    forall i | Text.OccursAt(x, [c], i) ensures x[i] == c {
      assert x[i..i + 1][0] == x[i];
    }
  }

  /** The inverse of `DoubleQuotes`: each pair of quotes read as one. */
  function Undouble(s: string): string {
    if |s| >= 2 && s[0] == '"' && s[1] == '"' then "\"" + Undouble(s[2..])
    else if s == [] then []
    else [s[0]] + Undouble(s[1..])
  }

  lemma {:induction false} UndoubleDoubleQuotes(s: string)
    ensures Undouble(DoubleQuotes(s)) == s
  {
    if s != [] {
      UndoubleDoubleQuotes(s[1..]);
      var rest := DoubleQuotes(s[1..]);
      if s[0] == '"' {
        assert DoubleQuotes(s) == "\"\"" + rest;
        assert DoubleQuotes(s)[2..] == rest;
      } else {
        assert DoubleQuotes(s) == [s[0]] + rest;
        assert DoubleQuotes(s)[1..] == rest;
      }
    }
  }

  /** How an RFC 4180 reader takes one field: an enclosed field loses its
      enclosing quotes and has its doubled quotes halved; any other field is
      taken as it stands. */
  function ReadField(f: string): string {
    if |f| >= 2 && f[0] == '"' && f[|f| - 1] == '"' then Undouble(f[1..|f| - 1]) else f
  }

  /** A reader gets back what was escaped when the field was enclosed, or
      held no quote to begin with. */
  lemma EscapeRoundTrip(s: string)
    requires ',' in s || '\n' in s || '"' !in s
    ensures ReadField(Escape(NonNull(s))) == s
  {
    UndoubleDoubleQuotes(s);
    var x := DoubleQuotes(s);
    if ',' in s || '\n' in s {
      var f := "\"" + x + "\"";
      assert f[1..|f| - 1] == x;
    } else {
      DoubleQuotesWithoutQuote(s);
    }
  }

  /** Without a quote there is nothing to double. */
  lemma {:induction false} DoubleQuotesWithoutQuote(s: string)
    requires '"' !in s
    ensures DoubleQuotes(s) == s
  {
    if s != [] {
      DoubleQuotesWithoutQuote(s[1..]);
    }
  }

  /** A quote in a field with no comma or line feed is doubled but not
      enclosed, which section 2 rule 6 of RFC 4180 does not allow: a reader
      takes such a field as it stands, doubled quote included. */
  lemma UnenclosedQuoteIsNotReadBack()
    ensures Escape(NonNull("a\"b")) == "a\"\"b"
    ensures ReadField(Escape(NonNull("a\"b"))) != "a\"b"
  {
    assert DoubleQuotes("a\"b") == "a\"\"b" by {
      assert "a\"b"[1..] == "\"b";
      assert "\"b"[1..] == "b";
    }
  }

  /** The line `visit` appends for a record. */
  function Line(t: TaskRecord): string {
    Text.IntToString(t.id) + "," + Escape(NonNull(t.title)) + "," + Escape(NonNull(t.description)) + ","
      + TaskStates.Name(t.state) + "," + Priorities.Name(t.priority) + "\n"
  }

  /** The id field needs no escaping: it is a sign and digits only. */
  lemma IdFieldIsPlain(id: int)
    ensures ',' !in Text.IntToString(id) && '\n' !in Text.IntToString(id) && '"' !in Text.IntToString(id)
  {
  }

  /** The fields of a line, split at every comma (no quoting rules). */
  function SplitFields(s: string): (r: seq<string>)
    ensures |r| >= 1
  {
    if s == [] then [""]
    else if s[0] == ',' then [""] + SplitFields(s[1..])
    else
      var rest := SplitFields(s[1..]);
      [[s[0]] + rest[0]] + rest[1..]
  }

  lemma {:induction false} SplitFieldsPlain(a: string)
    requires ',' !in a
    ensures SplitFields(a) == [a]
  {
    if a != [] {
      assert a[0] in a;
      SplitFieldsPlain(a[1..]);
      assert [a[0]] + a[1..] == a;
    }
  }

  /** A comma followed by a comma-free field adds that field at the end. */
  lemma {:induction false} SplitFieldsAppend(init: string, a: string)
    requires ',' !in a
    ensures SplitFields(init + "," + a) == SplitFields(init) + [a]
  {
    var s := init + "," + a;
    if init == [] {
      assert s == [','] + a && s[1..] == a;
      SplitFieldsPlain(a);
    } else {
      assert s[0] == init[0] && s[1..] == init[1..] + "," + a;
      SplitFieldsAppend(init[1..], a);
    }
  }

  /** Five comma-free fields joined by commas split back into those fields. */
  lemma SplitFive(f0: string, f1: string, f2: string, f3: string, f4: string)
    requires ',' !in f0 && ',' !in f1 && ',' !in f2 && ',' !in f3 && ',' !in f4
    ensures SplitFields(f0 + "," + f1 + "," + f2 + "," + f3 + "," + f4) == [f0, f1, f2, f3, f4]
  {
    SplitFieldsPlain(f0);
    SplitFieldsAppend(f0, f1);
    SplitFieldsAppend(f0 + "," + f1, f2);
    SplitFieldsAppend(f0 + "," + f1 + "," + f2, f3);
    SplitFieldsAppend(f0 + "," + f1 + "," + f2 + "," + f3, f4);
  }

  /** With nothing to escape, the line is the plain fields joined by commas. */
  lemma LineOfPlainRecord(t: TaskRecord)
    requires ',' !in t.title && '\n' !in t.title && '"' !in t.title
    requires ',' !in t.description && '\n' !in t.description && '"' !in t.description
    ensures Line(t) == Text.IntToString(t.id) + "," + t.title + "," + t.description + ","
                       + TaskStates.Name(t.state) + "," + Priorities.Name(t.priority) + "\n"
  {
    DoubleQuotesWithoutQuote(t.title);
    DoubleQuotesWithoutQuote(t.description);
  }

  /** For a record whose title and description hold no comma, quote or line
      feed, the line is the five fields, in header order, joined by commas
      and ended by a line feed. */
  lemma LineReadsBack(t: TaskRecord)
    requires ',' !in t.title && '\n' !in t.title && '"' !in t.title
    requires ',' !in t.description && '\n' !in t.description && '"' !in t.description
    ensures Line(t)[|Line(t)| - 1] == '\n'
    ensures SplitFields(Line(t)[..|Line(t)| - 1])
            == [Text.IntToString(t.id), t.title, t.description, TaskStates.Name(t.state), Priorities.Name(t.priority)]
  {
    var id := Text.IntToString(t.id);
    var st := TaskStates.Name(t.state);
    var pr := Priorities.Name(t.priority);
    var body := id + "," + t.title + "," + t.description + "," + st + "," + pr;
    LineOfPlainRecord(t);
    assert Line(t)[..|Line(t)| - 1] == body;
    IdFieldIsPlain(t.id);
    assert ',' !in st && ',' !in pr;
    SplitFive(id, t.title, t.description, st, pr);
  }

  class CsvExportVisitor {
    /** The text built so far. */
    var sb: string

    constructor ()
      ensures Csv() == Header
    {
      sb := Header;
    }

    /** `visit(t)`: appends the record's line after everything written so far. */
    method Visit(t: TaskRecord)
      modifies this
      ensures sb == old(sb) + Line(t)
    {
      sb := sb + Line(t);
    }

    /** `csv()`. */
    function Csv(): string
      reads this
    {
      sb
    }
  }
}
