/** The `git diff --name-status -z` stream: fields terminated by NUL, read back in pairs. */
module GitDiff {
  import opened Wrappers

  datatype DiffStatus = AddedOrModified | Deleted

  datatype Change = Change(status: DiffStatus, path: string)

  /** One pair as git prints it: a status code and a path. */
  datatype RawChange = RawChange(code: string, path: string)

  /** `split('\0')` with the empty fields filtered out; `field` is the field being read. */
  function Fields(s: string, field: string): seq<string>
    decreases |s|
  {
    var flushed := if field == [] then [] else [field];
    if s == [] then flushed
    else if s[0] == '\0' then flushed + Fields(s[1..], [])
    else Fields(s[1..], field + [s[0]])
  }

  function StatusOf(code: string): Option<DiffStatus> {
    if code == [] then None
    else if code[0] in {'A', 'M', 'T'} then Some(AddedOrModified)
    else if code[0] == 'D' then Some(Deleted)
    else None
  }

  /** Reads the fields two at a time and drops the pairs whose status is not acted upon. */
  function Changes(fields: seq<string>): seq<Change> {
    if |fields| < 2 then []
    else match StatusOf(fields[0])
      case None => Changes(fields[2..])
      case Some(status) => [Change(status, fields[1])] + Changes(fields[2..])
  }

  method ParseNameStatus(output: string) returns (result: seq<Change>)
    ensures result == Changes(Fields(output, []))
  {
    var fields := Fields(output, []);
    result := [];
    while |fields| >= 2
      invariant Changes(Fields(output, [])) == result + Changes(fields)
      decreases |fields|
    {
      var code, path := fields[0], fields[1];
      fields := fields[2..];
      var status := StatusOf(code);
      if status.Some? {
        result := result + [Change(status.value, path)];
      }
    }
  }

  // ---------------------------------------------------------------- round trip

  ghost predicate Printable(raw: seq<RawChange>) {
    forall r :: r in raw ==> r.code != [] && r.path != [] && '\0' !in r.code && '\0' !in r.path
  }

  function Render(raw: seq<RawChange>): string {
    if raw == [] then [] else raw[0].code + ['\0'] + raw[0].path + ['\0'] + Render(raw[1..])
  }

  /** git prints `p` with a status that starts with one of `codes`. */
  ghost predicate Prints(raw: seq<RawChange>, p: string, codes: set<char>) {
    exists r :: r in raw && r.path == p && r.code != [] && r.code[0] in codes
  }

  /** The pairs the command acts on, in order: added, modified and type-changed paths, and deleted ones. */
  function Decode(raw: seq<RawChange>): seq<Change> {
    if raw == [] then []
    else
      var r, rest := raw[0], Decode(raw[1..]);
      if r.code != [] && (r.code[0] == 'A' || r.code[0] == 'M' || r.code[0] == 'T')
      then [Change(AddedOrModified, r.path)] + rest
      else if r.code != [] && r.code[0] == 'D' then [Change(Deleted, r.path)] + rest
      else rest
  }

  lemma {:induction false} DecodedIff(raw: seq<RawChange>, p: string)
    ensures Change(AddedOrModified, p) in Decode(raw) <==> Prints(raw, p, {'A', 'M', 'T'})
    ensures Change(Deleted, p) in Decode(raw) <==> Prints(raw, p, {'D'})
    decreases |raw|
  {
    if raw != [] {
      DecodedIff(raw[1..], p);
      assert forall r :: r in raw <==> r == raw[0] || r in raw[1..];
    }
  }

  /** What is read back from the stream, status by status: `A`, `M` and `T` are writes, `D` is a deletion, and
      nothing else is acted on. */
  lemma ParsedIff(raw: seq<RawChange>, p: string)
    requires Printable(raw)
    ensures var changes := Changes(Fields(Render(raw), []));
            && (Change(AddedOrModified, p) in changes <==> Prints(raw, p, {'A', 'M', 'T'}))
            && (Change(Deleted, p) in changes <==> Prints(raw, p, {'D'}))
  {
    NameStatusRoundTrip(raw);
    DecodedIff(raw, p);
  }

  lemma {:induction false} FieldsReadOne(word: string, rest: string, field: string)
    requires '\0' !in word && field + word != []
    ensures Fields(word + ['\0'] + rest, field) == [field + word] + Fields(rest, [])
    decreases |word|
  {
    var s := word + ['\0'] + rest;
    if word == [] {
      assert s[1..] == rest && field + word == field;
    } else {
      assert s[1..] == word[1..] + ['\0'] + rest;
      assert (field + [word[0]]) + word[1..] == field + word;
      FieldsReadOne(word[1..], rest, field + [word[0]]);
    }
  }

  /** The fields of the stream: code, path, code, path, … */
  function Flat(raw: seq<RawChange>): seq<string> {
    if raw == [] then [] else [raw[0].code, raw[0].path] + Flat(raw[1..])
  }

  lemma PairOfFields(code: string, path: string, tail: string)
    requires code != [] && path != [] && '\0' !in code && '\0' !in path
    ensures Fields(code + ['\0'] + path + ['\0'] + tail, []) == [code, path] + Fields(tail, [])
  {
    var afterCode := path + ['\0'] + tail;
    assert code + ['\0'] + path + ['\0'] + tail == code + ['\0'] + afterCode;
    FieldsReadOne(code, afterCode, []);
    FieldsReadOne(path, tail, []);
    assert [] + code == code && [] + path == path;
    assert [code] + ([path] + Fields(tail, [])) == [code, path] + Fields(tail, []);
  }

  lemma {:induction false} FieldsOfRender(raw: seq<RawChange>)
    requires Printable(raw)
    ensures Fields(Render(raw), []) == Flat(raw)
    decreases |raw|
  {
    if raw != [] {
      assert raw[0] in raw;
      assert forall x :: x in raw[1..] ==> x in raw;
      PairOfFields(raw[0].code, raw[0].path, Render(raw[1..]));
      FieldsOfRender(raw[1..]);
    }
  }

  lemma {:induction false} ChangesOfFlat(raw: seq<RawChange>)
    ensures Changes(Flat(raw)) == Decode(raw)
    decreases |raw|
  {
    if raw != [] {
      assert Flat(raw)[2..] == Flat(raw[1..]);
      ChangesOfFlat(raw[1..]);
    }
  }

  /** Parsing the printed stream recovers every (status, path) pair, in order. */
  lemma NameStatusRoundTrip(raw: seq<RawChange>)
    requires Printable(raw)
    ensures Changes(Fields(Render(raw), [])) == Decode(raw)
  {
    FieldsOfRender(raw);
    ChangesOfFlat(raw);
  }

}
