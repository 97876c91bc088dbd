/**
 * The importer of the DNS zone resource: the import string is split on ':' and
 * must have the shape `<id>` or `<id>:<project_id>`.
 */
module ImportId {
  import opened Wrappers

  const SEPARATOR: char := ':'

  /** Joins non-empty list of parts with `sep` between consecutive parts. */
  function Join(parts: seq<string>, sep: char): string
    requires |parts| >= 1
  {
    if |parts| == 1 then parts[0] else parts[0] + [sep] + Join(parts[1..], sep)
  }

  /**
   * Splitting on a single-character separator, as Go's strings.Split does it.
   * There is always a first part; it is empty exactly when the input is empty
   * or starts with the separator. The empty string splits to [""].
   */
  function Split(s: string, sep: char): (parts: seq<string>)
    ensures |parts| >= 1
    ensures parts[0] == "" <==> (s == "" || s[0] == sep)
  {
    if |s| == 0 then [""]
    else
      var rest := Split(s[1..], sep);
      if s[0] == sep then [""] + rest
      else [[s[0]] + rest[0]] + rest[1..]
  }

  /**
   * Split yields one more part than there are separators, no part contains the
   * separator, and joining the parts back gives the input.
   */
  lemma SplitSound(s: string, sep: char)
    ensures |Split(s, sep)| == multiset(s)[sep] + 1
    ensures forall i :: 0 <= i < |Split(s, sep)| ==> sep !in Split(s, sep)[i]
    ensures Join(Split(s, sep), sep) == s
  {
    SplitLength(s, sep);
    SplitPartsFree(s, sep);
    SplitJoin(s, sep);
  }

  /** Split yields one more part than there are separators. */
  lemma {:induction false} SplitLength(s: string, sep: char)
    ensures |Split(s, sep)| == multiset(s)[sep] + 1
  {
    if |s| > 0 {
      SplitLength(s[1..], sep);
      assert s == [s[0]] + s[1..];
      assert multiset(s)[sep] == multiset(s[1..])[sep] + (if s[0] == sep then 1 else 0);
    }
  }

  /** No part of a split contains the separator. */
  lemma {:induction false} SplitPartsFree(s: string, sep: char)
    ensures forall i :: 0 <= i < |Split(s, sep)| ==> sep !in Split(s, sep)[i]
  {
    if |s| > 0 {
      var rest := Split(s[1..], sep);
      SplitPartsFree(s[1..], sep);
      var parts := Split(s, sep);
      if s[0] == sep {
        assert parts == [""] + rest;
      } else {
        assert parts == [[s[0]] + rest[0]] + rest[1..];
        assert forall i :: 1 <= i < |parts| ==> parts[i] == rest[i];
      }
    }
  }

  /** Joining the parts of a split with the separator gives back the input. */
  lemma {:induction false} SplitJoin(s: string, sep: char)
    ensures Join(Split(s, sep), sep) == s
  {
    if |s| > 0 {
      var rest := Split(s[1..], sep);
      SplitJoin(s[1..], sep);
      var parts := Split(s, sep);
      if s[0] == sep {
        assert parts == [""] + rest;
        assert parts[1..] == rest;
      } else {
        assert parts == [[s[0]] + rest[0]] + rest[1..];
        assert parts[1..] == rest[1..];
        if |rest| > 1 {
          assert Join(rest, sep) == rest[0] + [sep] + Join(rest[1..], sep);
        }
      }
      assert s == [s[0]] + s[1..];
    }
  }

  /** A part free of the separator, followed by the separator, splits off as the first part. */
  lemma {:induction false} SplitPrefix(p: string, rest: string, sep: char)
    requires sep !in p
    ensures Split(p + [sep] + rest, sep) == [p] + Split(rest, sep)
  {
    var s := p + [sep] + rest;
    if p != [] {
      assert s[0] == p[0] && s[0] != sep;
      assert s[1..] == p[1..] + [sep] + rest;
      SplitPrefix(p[1..], rest, sep);
      var tail := Split(s[1..], sep);
      assert tail == [p[1..]] + Split(rest, sep);
      assert Split(s, sep) == [[s[0]] + tail[0]] + tail[1..];
      assert tail[1..] == Split(rest, sep);
      assert [p[0]] + p[1..] == p;
    } else {
      assert s[0] == sep;
      assert s[1..] == rest;
      assert Split(s, sep) == [""] + Split(s[1..], sep);
    }
  }

  /** Splitting undoes joining, whenever no part contains the separator. */
  lemma {:induction false} SplitOfJoin(parts: seq<string>, sep: char)
    requires |parts| >= 1
    requires forall i :: 0 <= i < |parts| ==> sep !in parts[i]
    ensures Split(Join(parts, sep), sep) == parts
  {
    if |parts| == 1 {
      SplitSound(parts[0], sep);
      assert multiset(parts[0])[sep] == 0;
    } else {
      SplitOfJoin(parts[1..], sep);
      SplitPrefix(parts[0], Join(parts[1..], sep), sep);
      assert [parts[0]] + parts[1..] == parts;
    }
  }

  /** What an accepted import string assigns: the resource ID and, optionally, `project_id`. */
  datatype ImportedId = ImportedId(id: string, projectId: Option<string>)

  /** The error the importer reports for a malformed import string. */
  datatype ImportError = UnexpectedFormat(importString: string)

  /**
   * The importer's decision on an import string. It is rejected when the part
   * before the first ':' is empty or when there are more than two parts.
   */
  function Parse(s: string): (r: Result<ImportedId, ImportError>)
    ensures r.Failure? <==> (s == "" || s[0] == SEPARATOR || multiset(s)[SEPARATOR] > 1)
    ensures r.Failure? ==> r.error == UnexpectedFormat(s)
    ensures r.Success? ==> r.value.id != "" && SEPARATOR !in r.value.id
    ensures r.Success? && r.value.projectId.None? ==> r.value.id == s
    ensures r.Success? && r.value.projectId.Some? ==>
              SEPARATOR !in r.value.projectId.value &&
              s == r.value.id + [SEPARATOR] + r.value.projectId.value
  {
    var parts := Split(s, SEPARATOR);
    SplitSound(s, SEPARATOR);
    if parts[0] == "" || |parts| > 2 then Failure(UnexpectedFormat(s))
    else if |parts| == 2 then
      assert Join(parts, SEPARATOR) == parts[0] + [SEPARATOR] + parts[1];
      Success(ImportedId(parts[0], Some(parts[1])))
    else Success(ImportedId(parts[0], None))
  }

  /** An import string without ':' is taken whole as the resource ID; `project_id` is not assigned. */
  lemma NoSeparatorIsPlainId(s: string)
    requires s != "" && SEPARATOR !in s
    ensures Parse(s) == Success(ImportedId(s, None))
  {
    SplitSound(s, SEPARATOR);
    assert multiset(s)[SEPARATOR] == 0;
  }

  /** Round trip: importing `id:project` gives back exactly `id` and `project`. */
  lemma {:induction false} RoundTrip(id: string, project: string)
    requires id != "" && SEPARATOR !in id && SEPARATOR !in project
    ensures Parse(id + [SEPARATOR] + project) == Success(ImportedId(id, Some(project)))
  {
    var s := id + [SEPARATOR] + project;
    SplitPrefix(id, project, SEPARATOR);
    assert Split(project, SEPARATOR) == [project] by {
      SplitLength(project, SEPARATOR);
      SplitJoin(project, SEPARATOR);
      assert multiset(project)[SEPARATOR] == 0;
    }
    assert Split(s, SEPARATOR) == [id, project];
  }

  /** Formatting an accepted import back as `id` or `id:project` reproduces the input exactly. */
  function Format(v: ImportedId): string
  {
    match v.projectId
    case None => v.id
    case Some(p) => v.id + [SEPARATOR] + p
  }

  lemma FormatOfParse(s: string)
    ensures Parse(s).Success? ==> Format(Parse(s).value) == s
  {
  }
}
