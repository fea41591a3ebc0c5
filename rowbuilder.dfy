/**
 * The row builder of main.py (`append_to_sheet` without the Sheets call): the file
 * name is stripped, its extension removed as `os.path.splitext` does, the pattern
 * `(\d+)\.\s*(.+)` derives an index and a person name, and the parsed fields are laid
 * out in the fixed column order, with lists and dicts turned into JSON text.
 */
module RowBuilder {
  import opened Wrappers
  import opened Text
  import opened Json

  // ---------------------------------------------------------------------------
  // os.path.splitext (POSIX flavour: the separator is '/')
  // ---------------------------------------------------------------------------

  /** `s.rfind(c)`: the last position of `c` in `s`, or -1. */
  function RFind(s: string, c: char): (k: int)
    ensures -1 <= k < |s|
    ensures k >= 0 ==> s[k] == c
    ensures forall i :: 0 <= i < |s| && k < i ==> s[i] != c
  {
    RFindBelow(s, c, |s|)
  }

  /** The last position below `n` of `c` in `s`, or -1. */
  function RFindBelow(s: string, c: char, n: nat): (k: int)
    requires n <= |s|
    ensures -1 <= k < n
    ensures k >= 0 ==> s[k] == c
    ensures forall i :: k < i < n ==> s[i] != c
  {
    if n == 0 then -1
    else if s[n - 1] == c then n - 1
    else RFindBelow(s, c, n - 1)
  }

  /** No '/' at or after position `i`: position `i` lies in the last path component. */
  predicate InLastComponent(p: string, i: int)
  {
    forall j :: 0 <= j < |p| && i <= j ==> p[j] != '/'
  }

  /** The last path component of `p` has a '.' after a character that is not a '.',
      which is when `splitext` finds an extension (leading dots do not start one). */
  predicate HasExtension(p: string)
  {
    exists i, d :: 0 <= i < d < |p| && p[i] != '.' && p[d] == '.' && InLastComponent(p, i)
  }

  /** An extension as `splitext` returns it: empty, or a '.' followed by characters
      that are neither '.' nor '/'. */
  predicate IsExtension(e: string)
  {
    e == [] || (e[0] == '.' && forall j :: 1 <= j < |e| ==> e[j] != '.' && e[j] != '/')
  }

  /** `os.path.splitext(p)`: the pair (root, ext). */
  function SplitExt(p: string): (string, string)
  {
    var sep := RFind(p, '/');
    var dot := RFind(p, '.');
    if dot > sep && exists i :: sep < i < dot && p[i] != '.' then (p[..dot], p[dot..]) else (p, [])
  }

  /** `splitext` cuts `p` in two, the second part an extension, and finds one exactly
      when the last component has a '.' after a character that is not a '.'. */
  lemma SplitExtParts(p: string)
    ensures var r := SplitExt(p);
      && r.0 + r.1 == p
      && IsExtension(r.1)
      && (r.1 != [] <==> HasExtension(p))
  {
    var sep := RFind(p, '/');
    var dot := RFind(p, '.');
    if dot > sep && exists i :: sep < i < dot && p[i] != '.' {
      assert p == p[..dot] + p[dot..];
    } else {
      assert !HasExtension(p);
      assert p + [] == p;
    }
  }

  /** `os.path.splitext(p)[0]`. */
  function Root(p: string): string
  {
    SplitExt(p).0
  }

  /** A last component `base.ext`, where `base` has a character other than '.' and `ext`
      has no '.', loses exactly `.ext`. */
  lemma RootDropsLastExtension(base: string, ext: string)
    requires exists i :: 0 <= i < |base| && base[i] != '.'
    requires '/' !in base
    requires '.' !in ext && '/' !in ext
    ensures Root(base + "." + ext) == base
  {
    var p := base + "." + ext;
    var i :| 0 <= i < |base| && base[i] != '.';
    assert '/' !in p;
    assert p[i] != '.' && p[|base|] == '.' && InLastComponent(p, i);
    var r := SplitExt(p);
    SplitExtParts(p);
    assert r.1 != [];
    assert r.0 == p[..|base|] == base;
  }

  /** A name without a '.' has no extension to lose. */
  lemma RootWithoutDot(p: string)
    requires forall j :: 0 <= j < |p| ==> p[j] != '.'
    ensures Root(p) == p
  {
  }

  // ---------------------------------------------------------------------------
  // re.match(r"(\d+)\.\s*(.+)", s)
  // ---------------------------------------------------------------------------

  /** One way for the pattern to match at the start of a string: `digits` characters
      for `\d+`, the '.', `spaces` characters for `\s*`, then `nameLen` for `.+`. */
  datatype IndexMatch = IndexMatch(digits: nat, spaces: nat, nameLen: nat)
  {
    function NameStart(): nat { digits + 1 + spaces }
  }

  /** `m` is a way for `(\d+)\.\s*(.+)` to match at the start of `s` (a match need not
      reach the end of `s`; `.` does not match a newline). */
  predicate IsMatch(s: string, m: IndexMatch)
  {
    0 < m.digits && 0 < m.nameLen && m.NameStart() + m.nameLen <= |s|
    && (forall i :: 0 <= i < m.digits ==> IsDigit(s[i]))
    && s[m.digits] == '.'
    && (forall i :: m.digits < i < m.NameStart() ==> IsSpace(s[i]))
    && (forall i :: m.NameStart() <= i < m.NameStart() + m.nameLen ==> s[i] != '\n')
  }

  /** The regex engine tries the quantifiers greedily, left to right: `a` is tried no
      later than `b`. */
  predicate TriedFirst(a: IndexMatch, b: IndexMatch)
  {
    a.digits > b.digits
    || (a.digits == b.digits && a.spaces > b.spaces)
    || (a.digits == b.digits && a.spaces == b.spaces && a.nameLen >= b.nameLen)
  }

  /** The last position at or after `lo` in `s` that holds something other than a newline. */
  function LastNonNewline(s: string, lo: nat): (r: Option<nat>)
    requires lo <= |s|
    ensures r.Some? ==> (lo <= r.value < |s| && s[r.value] != '\n'
      && forall i :: r.value < i < |s| ==> s[i] == '\n')
    ensures r.None? ==> forall i :: lo <= i < |s| ==> s[i] == '\n'
    decreases |s| - lo
  {
    if lo == |s| then None
    else
      match LastNonNewline(s, lo + 1)
      case Some(j) => Some(j)
      case None => if s[lo] != '\n' then Some(lo) else None
  }

  /** The match `re.match` returns, if any. After the maximal digit run and the '.',
      `\s*` takes all the whitespace, then gives characters back until `.+` can start
      on something other than a newline; `.+` runs to the next newline. */
  function MatchIndexPattern(s: string): Option<IndexMatch>
  {
    var d := DigitRun(s);
    if d == 0 || d == |s| || s[d] != '.' then None
    else
      match NameStartAfter(s, d + 1)
      case None => None
      case Some(k) => Some(IndexMatch(d, k - (d + 1), LineRunFrom(s, k)))
  }

  /** Where `.+` starts once `\s*` has been tried from position `i`: after all the
      whitespace if something follows it, otherwise at the last character other than a
      newline that `\s*` can give back. */
  function NameStartAfter(s: string, i: nat): (r: Option<nat>)
    requires i <= |s|
    ensures r.Some? ==> i <= r.value < |s|
  {
    var w := SpaceRunFrom(s, i);
    if i + w < |s| then Some(i + w) else LastNonNewline(s, i)
  }

  /** What `MatchIndexPattern` returns is a match. */
  lemma MatchIndexPatternSound(s: string)
    ensures MatchIndexPattern(s).Some? ==> IsMatch(s, MatchIndexPattern(s).value)
  {
    var d := DigitRun(s);
    assert forall i :: 0 <= i < d ==> s[..d][i] == s[i];
  }

  /** Every match of the pattern has the same digit run as the maximal one. */
  lemma MatchDigitsAreMaximal(s: string, m: IndexMatch)
    requires IsMatch(s, m)
    ensures m.digits == DigitRun(s)
  {
    var d := DigitRun(s);
    assert forall i :: 0 <= i < d ==> s[..d][i] == s[i];
  }

  /** What `re.match` returns is the match the engine tries first, and it finds no match
      only when there is none. */
  lemma MatchIndexPatternIsGreedy(s: string)
    ensures var r := MatchIndexPattern(s);
      && (r.Some? ==> IsMatch(s, r.value))
      && (r.Some? ==> forall m :: IsMatch(s, m) ==> TriedFirst(r.value, m))
      && (r.None? ==> forall m :: !IsMatch(s, m))
  {
    MatchIndexPatternSound(s);
    forall m | IsMatch(s, m)
      ensures MatchIndexPattern(s).Some? && TriedFirst(MatchIndexPattern(s).value, m)
    {
      MatchBeatsOther(s, m);
    }
  }

  /** Any one match is tried no earlier than the one returned. */
  lemma MatchBeatsOther(s: string, m: IndexMatch)
    requires IsMatch(s, m)
    ensures MatchIndexPattern(s).Some? && TriedFirst(MatchIndexPattern(s).value, m)
  {
    var d := DigitRun(s);
    MatchDigitsAreMaximal(s, m);
    var w := SpaceRunFrom(s, d + 1);
    assert m.spaces <= w;
    var start := m.NameStart();
    assert s[start] != '\n';
    var k := NameStartAfter(s, d + 1).value;
    assert start <= k;
  }

  /** The (index, name) pair `append_to_sheet` derives from an extension-less name:
      groups 1 and 2 of the match, or two empty strings. */
  function IndexAndName(root: string): (string, string)
  {
    MatchIndexPatternSound(root);
    match MatchIndexPattern(root)
    case Some(m) => (root[..m.digits], root[m.NameStart()..m.NameStart() + m.nameLen])
    case None => ("", "")
  }

  /** `index_number` and `name` as `append_to_sheet` computes them from a file name. */
  function NameFields(fileName: string): (string, string)
  {
    IndexAndName(Root(Strip(fileName)))
  }

  /** A name of the form `<digits>.<whitespace><rest>`, where `rest` does not start with
      whitespace and holds no newline, yields exactly those digits (not normalised as a
      number) and exactly `rest`. */
  lemma IndexAndNameOfWellFormed(digits: string, ws: string, rest: string)
    requires digits != [] && AllDigits(digits)
    requires AllSpace(ws)
    requires rest != [] && !IsSpace(rest[0]) && '\n' !in rest
    ensures IndexAndName(digits + "." + ws + rest) == (digits, rest)
  {
    var s := digits + "." + ws + rest;
    var d, w := |digits|, |ws|;
    assert s[..d] == digits;
    assert s[d + 1 + w..] == rest;
    assert s[d] == '.';
    assert forall i :: d < i <= d + w ==> s[i] == ws[i - d - 1];
    IndexAndNameAt(s, d, w);
  }

  /** Positions spelled out: `d` digits, the '.', `w` whitespace characters, then a rest
      that starts with something other than whitespace and holds no newline. */
  lemma IndexAndNameAt(s: string, d: nat, w: nat)
    requires 0 < d && d + 1 + w < |s|
    requires AllDigits(s[..d]) && s[d] == '.'
    requires forall i :: d < i <= d + w ==> IsSpace(s[i])
    requires !IsSpace(s[d + 1 + w]) && '\n' !in s[d + 1 + w..]
    ensures IndexAndName(s) == (s[..d], s[d + 1 + w..])
  {
    var k := d + 1 + w;
    MatchAt(s, d, w);
    var name := s[k..k + (|s| - k)];
    assert |name| == |s[k..]|;
    assert forall i :: 0 <= i < |name| ==> name[i] == s[k..][i];
    assert name == s[k..];
    assert IndexAndName(s) == (s[..d], name);
  }

  /** The match found in such a string: the whole digit run, all the whitespace and the
      whole rest. */
  lemma MatchAt(s: string, d: nat, w: nat)
    requires 0 < d && d + 1 + w < |s|
    requires AllDigits(s[..d]) && s[d] == '.'
    requires forall i :: d < i <= d + w ==> IsSpace(s[i])
    requires !IsSpace(s[d + 1 + w]) && '\n' !in s[d + 1 + w..]
    ensures MatchIndexPattern(s) == Some(IndexMatch(d, w, |s| - (d + 1 + w)))
  {
    DigitRunStopsAt(s, d);
    assert SpaceRunFrom(s, d + 1) == w;
    var k := d + 1 + w;
    assert forall i :: k <= i < |s| ==> s[i] == s[k..][i - k];
    assert LineRunFrom(s, k) == |s| - k;
  }

  /** Without a match both derived fields are empty, and with one the index is not:
      the index is empty exactly when the pattern does not match. */
  lemma IndexEmptyIffNoMatch(root: string)
    ensures IndexAndName(root).0 == [] <==> MatchIndexPattern(root).None?
    ensures MatchIndexPattern(root).None? ==> IndexAndName(root) == ("", "")
  {
  }

  // ---------------------------------------------------------------------------
  // The row
  // ---------------------------------------------------------------------------

  /** The column names of the output sheet, in order (`ORDERED_FIELDS`). */
  const OrderedFields: seq<string> := [
    "index", "name", "resume_link",
    "industry", "experience", "current_location", "email", "phone", "linkedin",
    "current_job_title", "current_company", "education", "major", "university",
    "location_preference"
  ]

  /** The twelve keys read from the parsed fields: `ORDERED_FIELDS[3:]`. */
  const DataFields: seq<string> := OrderedFields[3..]

  type Row = seq<Value>

  /** The shareable link written in the third column. */
  function ResumeLink(fileId: string): string
  {
    "https://drive.google.com/file/d/" + fileId + "/view?usp=sharing"
  }

  /** `sanitize_field`: lists and dicts become their `json.dumps` text; every other value
      is written as it is. */
  function Sanitize(v: Value, dumps: Value -> string): (c: Value)
    ensures !IsStructured(c)
    ensures IsStructured(v) ==> c == Str(dumps(v))
    ensures !IsStructured(v) ==> c == v
  {
    if IsStructured(v) then Str(dumps(v)) else v
  }

  /** The twelve field cells of the row. */
  function FieldCells(entries: seq<(string, Value)>, dumps: Value -> string): seq<Value>
  {
    seq(|DataFields|, k requires 0 <= k < |DataFields| => Sanitize(Get(entries, DataFields[k], Str("")), dumps))
  }

  /** `ordered_row` once the index and the name are known: those two, the link, then
      the twelve field cells. */
  function OrderedRow(index: string, name: string, fileId: string, entries: seq<(string, Value)>,
                      dumps: Value -> string): Row
  {
    [Str(index), Str(name), Str(ResumeLink(fileId))] + FieldCells(entries, dumps)
  }

  /** `ordered_row` of `append_to_sheet`. The parsed value is whatever `json.loads`
      returned; `data.get` raises on anything but a dict. */
  function BuildRow(fileId: string, fileName: string, parsed: Value, dumps: Value -> string): Result<Row, string>
  {
    match parsed
    case Dict(entries) =>
      var (index, name) := NameFields(fileName);
      Ok(OrderedRow(index, name, fileId, entries, dumps))
    case _ => Err(NoGetMessage(parsed))
  }

  /** A row is built exactly when the parsed value is a dict, from the index and name
      derived from the file name; otherwise the error is the `AttributeError` of `.get`. */
  lemma BuildRowCases(fileId: string, fileName: string, parsed: Value, dumps: Value -> string)
    ensures var r := BuildRow(fileId, fileName, parsed, dumps);
      && (r.Ok? <==> parsed.Dict?)
      && (r.Ok? ==> r.value == OrderedRow(NameFields(fileName).0, NameFields(fileName).1, fileId,
                                          parsed.entries, dumps))
      && (r.Err? ==> r.error == NoGetMessage(parsed))
  {
  }

  /** The row has one cell per column, starting with the index, the name and the link. */
  lemma OrderedRowShape(index: string, name: string, fileId: string, entries: seq<(string, Value)>,
                        dumps: Value -> string)
    ensures var row := OrderedRow(index, name, fileId, entries, dumps);
      && |row| == |OrderedFields| == 15
      && row[0] == Str(index) && row[1] == Str(name) && row[2] == Str(ResumeLink(fileId))
  {
    assert |FieldCells(entries, dumps)| == 12;
  }

  /** Column `k` (from 3 on) holds the sanitized value of the key named by header `k`. */
  lemma OrderedRowColumn(index: string, name: string, fileId: string, entries: seq<(string, Value)>,
                         dumps: Value -> string, k: nat)
    requires 3 <= k < |OrderedFields|
    ensures var row := OrderedRow(index, name, fileId, entries, dumps);
      k < |row| && row[k] == Sanitize(Get(entries, OrderedFields[k], Str("")), dumps)
  {
    assert OrderedFields[k] == DataFields[k - 3];
  }

  /** A key missing from the parsed dict yields an empty string in its column. */
  lemma MissingFieldIsEmpty(index: string, name: string, fileId: string, entries: seq<(string, Value)>,
                            dumps: Value -> string, k: nat)
    requires 3 <= k < |OrderedFields|
    requires forall i :: 0 <= i < |entries| ==> entries[i].0 != OrderedFields[k]
    ensures var row := OrderedRow(index, name, fileId, entries, dumps);
      k < |row| && row[k] == Str("")
  {
    OrderedRowColumn(index, name, fileId, entries, dumps, k);
    GetFindsLast(entries, OrderedFields[k], Str(""));
  }

  /** A present key's (last) value goes to its column: as JSON text when it is a list or a
      dict, unchanged otherwise (numbers, booleans and null included). */
  lemma PresentFieldCell(index: string, name: string, fileId: string, entries: seq<(string, Value)>,
                         dumps: Value -> string, k: nat, i: nat)
    requires 3 <= k < |OrderedFields|
    requires i < |entries| && entries[i].0 == OrderedFields[k] && NoKeyAfter(entries, OrderedFields[k], i)
    ensures var row := OrderedRow(index, name, fileId, entries, dumps);
      && k < |row|
      && (IsStructured(entries[i].1) ==> row[k] == Str(dumps(entries[i].1)))
      && (!IsStructured(entries[i].1) ==> row[k] == entries[i].1)
  {
    OrderedRowColumn(index, name, fileId, entries, dumps, k);
    GetFindsLast(entries, OrderedFields[k], Str(""));
  }

  /** No cell of a row is a list or a dict. */
  lemma RowCellsAreFlat(index: string, name: string, fileId: string, entries: seq<(string, Value)>,
                        dumps: Value -> string)
    ensures forall c :: c in OrderedRow(index, name, fileId, entries, dumps) ==> !IsStructured(c)
  {
    var cells := FieldCells(entries, dumps);
    assert forall k :: 0 <= k < |cells| ==> !IsStructured(cells[k]);
  }

  /** The row depends on the parsed dict only through the twelve schema keys. */
  lemma RowDependsOnlyOnSchemaKeys(index: string, name: string, fileId: string, e1: seq<(string, Value)>,
                                   e2: seq<(string, Value)>, dumps: Value -> string)
    requires forall key :: key in DataFields ==> Get(e1, key, Str("")) == Get(e2, key, Str(""))
    ensures OrderedRow(index, name, fileId, e1, dumps) == OrderedRow(index, name, fileId, e2, dumps)
  {
    assert FieldCells(e1, dumps) == FieldCells(e2, dumps) by {
      forall k | 0 <= k < |DataFields|
        ensures FieldCells(e1, dumps)[k] == FieldCells(e2, dumps)[k]
      {
        assert DataFields[k] in DataFields;
      }
    }
  }

  /** Members under keys outside the twelve do not change the row. */
  lemma ExtraKeysIgnored(index: string, name: string, fileId: string, entries: seq<(string, Value)>,
                         extra: seq<(string, Value)>, dumps: Value -> string)
    requires forall j :: 0 <= j < |extra| ==> extra[j].0 !in DataFields
    ensures OrderedRow(index, name, fileId, entries + extra, dumps) == OrderedRow(index, name, fileId, entries, dumps)
  {
    forall key | key in DataFields
      ensures Get(entries + extra, key, Str("")) == Get(entries, key, Str(""))
    {
      GetIgnoresOtherKeys(entries, extra, key, Str(""));
    }
    RowDependsOnlyOnSchemaKeys(index, name, fileId, entries + extra, entries, dumps);
  }

  /** A name that starts with a digit and ends in something other than whitespace is
      already stripped. */
  lemma StripResumeFile(digits: string, rest: string)
    requires digits != [] && AllDigits(digits)
    requires rest != [] && !IsSpace(rest[|rest| - 1])
    ensures Strip(digits + rest) == digits + rest
  {
    var p := digits + rest;
    assert p[0] == digits[0] && p[|p| - 1] == rest[|rest| - 1];
    StripOfStripped(p);
  }

  /** Stripping and `splitext` reduce `<digits>.<whitespace><name>.<ext>` to
      `<digits>.<whitespace><name>` when the extension has no '.'. */
  lemma RootOfResumeFile(digits: string, ws: string, name: string, ext: string)
    requires digits != [] && AllDigits(digits) && AllSpace(ws)
    requires '/' !in name && '/' !in ws
    requires '.' !in ext && '/' !in ext
    requires ext != [] ==> !IsSpace(ext[|ext| - 1])
    ensures Root(Strip(digits + "." + ws + name + "." + ext)) == digits + "." + ws + name
  {
    var base := digits + "." + ws + name;
    var p := base + "." + ext;
    assert p[0] == digits[0];
    assert p[|p| - 1] == (if ext == [] then '.' else ext[|ext| - 1]);
    StripOfStripped(p);
    assert base[0] == digits[0];
    assert '/' !in digits;
    RootDropsLastExtension(base, ext);
  }

  /** A file name `<digits>.<whitespace><name>.<ext>`, with a name that does not start with
      whitespace and an extension without '.', yields the digits as the index and the
      name as the name. */
  lemma NameFieldsOfResumeFile(digits: string, ws: string, name: string, ext: string)
    requires digits != [] && AllDigits(digits) && AllSpace(ws)
    requires name != [] && !IsSpace(name[0]) && '\n' !in name && '/' !in name && '/' !in ws
    requires '.' !in ext && '/' !in ext
    requires ext != [] ==> !IsSpace(ext[|ext| - 1])
    ensures NameFields(digits + "." + ws + name + "." + ext) == (digits, name)
  {
    RootOfResumeFile(digits, ws, name, ext);
    IndexAndNameOfWellFormed(digits, ws, name);
  }

  /** "167. David Kim.pdf" gives index "167" and name "David Kim". */
  lemma NameFieldsExample()
    ensures NameFields("167. David Kim.pdf") == ("167", "David Kim")
  {
    assert "167. David Kim.pdf" == "167" + "." + " " + "David Kim" + "." + "pdf";
    NameFieldsOfResumeFile("167", " ", "David Kim", "pdf");
  }

  /** "167" alone does not match the pattern: no '.' follows the digits. */
  lemma DigitsAloneDoNotMatch(digits: string)
    requires AllDigits(digits)
    ensures IndexAndName(digits) == ("", "")
  {
    assert DigitRun(digits) == |digits| by {
      assert forall i :: 0 <= i < DigitRun(digits) ==> digits[..DigitRun(digits)][i] == digits[i];
    }
  }

  /** `<digits>.<rest>` is already stripped when `rest` does not end in whitespace. */
  lemma StripDigitsDotRest(digits: string, rest: string)
    requires digits != [] && AllDigits(digits)
    requires rest != [] && !IsSpace(rest[|rest| - 1])
    ensures Strip(digits + "." + rest) == digits + "." + rest
  {
    assert digits + "." + rest == digits + ("." + rest);
    assert ("." + rest)[|rest|] == rest[|rest| - 1];
    StripResumeFile(digits, "." + rest);
  }

  /** `splitext` takes everything after the only '.' of `<digits>.<rest>` for an extension. */
  lemma RootOfDigitsDotRest(digits: string, rest: string)
    requires digits != [] && AllDigits(digits)
    requires '.' !in rest && '/' !in rest
    ensures Root(digits + "." + rest) == digits
  {
    assert digits[0] != '.';
    assert '/' !in digits;
    RootDropsLastExtension(digits, rest);
  }

  /** A name `<digits>.<rest>` that has no other '.' (an extension-less "167. David Kim")
      loses `.<rest>` to `splitext`; the digits alone do not match the pattern, so both
      fields are empty. */
  lemma NameWithoutExtensionLosesName(digits: string, rest: string)
    requires digits != [] && AllDigits(digits)
    requires rest != [] && !IsSpace(rest[|rest| - 1])
    requires '.' !in rest && '/' !in rest
    ensures NameFields(digits + "." + rest) == ("", "")
  {
    StripDigitsDotRest(digits, rest);
    RootOfDigitsDotRest(digits, rest);
    DigitsAloneDoNotMatch(digits);
  }

  /** "167. David Kim" without an extension gives two empty fields. */
  lemma NameFieldsExampleWithoutExtension()
    ensures NameFields("167. David Kim") == ("", "")
  {
    assert "167. David Kim" == "167" + "." + " David Kim";
    NameWithoutExtensionLosesName("167", " David Kim");
  }
}
