/**
 * The CSV export action: how each column's lookup path and label are chosen, how a value
 * is read from an object along a `__`-separated path, and which rows are written.
 */
module Actions {

  import opened Wrappers
  import opened Strings
  import opened Values
  import opened Schema
  import opened Lists

  /** An object's attributes, as `getattr` sees them. */
  datatype Obj = Obj(text: string, attrs: map<string, Attr>)

  /** A stored value, a related object (or a null relation), or a method returning a value when called. */
  datatype Attr = Scalar(v: Value) | Link(target: Option<Obj>) | Method(result: Value)

  /** What the walk along a path holds: an object, a plain value, or an uncalled method. */
  datatype Cur = AnObj(o: Obj) | AValue(v: Value) | AMethod(result: Value)

  const PATH_SEPARATOR := "__"
  const ATTRIBUTE_ERROR := "AttributeError"

  /** `getattr(cur, name, None)`: `None` for a missing attribute, a null value or a null relation. */
  function GetAttrOrNone(cur: Cur, name: string): (r: Option<Cur>)
    ensures cur.AnObj? && name !in cur.o.attrs ==> r.None?
    ensures !cur.AnObj? ==> r.None?
  {
    if !cur.AnObj? || name !in cur.o.attrs then None
    else match cur.o.attrs[name]
      case Scalar(v) => if v.Null? then None else Some(AValue(v))
      case Link(t) => if t.None? then None else Some(AnObj(t.value))
      case Method(x) => Some(AMethod(x))
  }

  /** Following the intermediate segments; `None` as soon as one of them yields nothing. */
  function Follow(cur: Cur, bits: seq<string>): (r: Option<Cur>)
    ensures bits == [] ==> r == Some(cur)
    ensures |bits| == 1 ==> r == GetAttrOrNone(cur, bits[0])
    decreases |bits|
  {
    if bits == [] then Some(cur)
    else match GetAttrOrNone(cur, bits[0])
      case None => None
      case Some(next) => Follow(next, bits[1..])
  }

  /** Following a path is following its first part, then the rest from where that ends. */
  lemma {:induction false} FollowAppend(cur: Cur, a: seq<string>, b: seq<string>)
    ensures Follow(cur, a + b) == (match Follow(cur, a) case None => None case Some(mid) => Follow(mid, b))
    decreases |a|
  {
    if a == [] {
      assert a + b == b;
    } else {
      assert (a + b)[0] == a[0] && (a + b)[1..] == a[1..] + b;
      match GetAttrOrNone(cur, a[0])
      case None =>
      case Some(next) => FollowAppend(next, a[1..], b);
    }
  }

  /** `str(output)` for a present value; `""` for `None`. */
  function OutputText(output: Value): (r: string)
    ensures output.Null? ==> r == ""
    ensures !output.Null? ==> r == PyStr(output)
  {
    if output.Null? then "" else PyStr(output)
  }

  /** The last segment: looked up without a default (an error when missing), called when callable. */
  function FinalValue(cur: Cur, field: string): (r: Result<string, string>)
    ensures !cur.AnObj? || field !in cur.o.attrs ==> r == Err(ATTRIBUTE_ERROR)
    ensures cur.AnObj? && field in cur.o.attrs && cur.o.attrs[field].Method? ==> r == Ok(OutputText(cur.o.attrs[field].result))
  {
    if !cur.AnObj? || field !in cur.o.attrs then Err(ATTRIBUTE_ERROR)
    else match cur.o.attrs[field]
      case Scalar(v) => Ok(OutputText(v))
      case Link(t) => Ok(if t.None? then "" else t.value.text)
      case Method(x) => Ok(OutputText(x))
  }

  /** `prep_field`, as a definition. */
  function PrepFieldSpec(obj: Obj, field: string): Result<string, string>
  {
    if Contains(field, PATH_SEPARATOR) then
      var bits := Split(field, PATH_SEPARATOR);
      match Follow(AnObj(obj), bits[..|bits| - 1])
      case None => Ok("")
      case Some(cur) => FinalValue(cur, bits[|bits| - 1])
    else FinalValue(AnObj(obj), field)
  }

  /** `prep_field`: walk the path one attribute at a time, giving up with `""` on a missing link. */
  method PrepField(obj: Obj, field: string) returns (r: Result<string, string>)
    ensures r == PrepFieldSpec(obj, field)
  {
    var cur := AnObj(obj);
    var last := field;
    if Contains(field, PATH_SEPARATOR) {
      var bits := Split(field, PATH_SEPARATOR);
      last := bits[|bits| - 1];
      var front := bits[..|bits| - 1];
      var k := 0;
      while k < |front|
        invariant 0 <= k <= |front|
        invariant Follow(AnObj(obj), front) == Follow(cur, front[k..])
      {
        var next := GetAttrOrNone(cur, front[k]);
        assert Follow(cur, front[k..]) == if next.None? then None else Follow(next.value, front[k + 1..]) by {
          assert front[k..][0] == front[k] && front[k..][1..] == front[k + 1..];
        }
        if next.None? {
          return Ok("");
        }
        cur := next.value;
        k := k + 1;
      }
    }
    r := FinalValue(cur, last);
  }

  /** A path whose first link is a null relation gives an empty cell, whatever follows. */
  lemma NullLinkGivesEmpty(obj: Obj, link: string, rest: string)
    requires link in obj.attrs && obj.attrs[link] == Link(None)
    requires !Contains(link, PATH_SEPARATOR) && link != "" && link[|link| - 1] != '_' && rest != ""
    ensures PrepFieldSpec(obj, link + PATH_SEPARATOR + rest) == Ok("")
  {
    var field := link + PATH_SEPARATOR + rest;
    FindContains(link, PATH_SEPARATOR);
    FindAfterSeparatorFree(link, rest);
    assert OccursAt(field, PATH_SEPARATOR, |link|);
    var bits := Split(field, PATH_SEPARATOR);
    assert bits[0] == link;
  }

  /** In `link + "__" + rest`, the first separator is the one after `link`. */
  lemma FindAfterSeparatorFree(link: string, rest: string)
    requires !Contains(link, PATH_SEPARATOR) && link != "" && link[|link| - 1] != '_'
    ensures Find(link + PATH_SEPARATOR + rest, PATH_SEPARATOR) == Some(|link|)
  {
    var s := link + PATH_SEPARATOR + rest;
    assert OccursAt(s, PATH_SEPARATOR, |link|);
    forall j: nat | j < |link|
      ensures !OccursAt(s, PATH_SEPARATOR, j)
    {
      if j + 1 < |link| {
        assert s[j..j + 2] == link[j..j + 2];
        assert !OccursAt(link, PATH_SEPARATOR, j);
      } else {
        assert s[j] == link[j];
        assert s[j..j + 2][0] == link[j];
      }
    }
  }

  /** `str.capitalize()` on ASCII: the first letter upper-case, the rest lower-case. */
  function Capitalize(s: string): (r: string)
    ensures |r| == |s|
    ensures |s| > 0 ==> r[0] == UpperChar(s[0]) && r[1..] == Lower(s[1..])
  {
    if s == [] then [] else [UpperChar(s[0])] + Lower(s[1..])
  }

  function UpperChar(c: char): (r: char)
    ensures 'a' <= c <= 'z' ==> r as int == c as int - 32
    ensures !('a' <= c <= 'z') ==> r == c
  {
    if 'a' <= c <= 'z' then (c as int - 32) as char else c
  }

  /** `fname`: the capitalised verbose name, or the field name. */
  function FieldLabel(f: Field, verboseNames: bool): (r: string)
    ensures verboseNames ==> r == Capitalize(f.verboseName)
    ensures !verboseNames ==> r == f.name
  {
    if verboseNames then Capitalize(f.verboseName) else f.name
  }

  /** A column specification: a lookup path, or a (path, label) pair. */
  datatype Spec = Path(path: string) | Labelled(path: string, heading: string)

  /** An ordered dictionary from lookup path to label. */
  type Columns = seq<(string, string)>

  function Keys(cols: Columns): (r: seq<string>)
    ensures |r| == |cols|
    ensures forall i :: 0 <= i < |r| ==> r[i] == cols[i].0
  {
    if cols == [] then [] else [cols[0].0] + Keys(cols[1..])
  }

  function Labels(cols: Columns): (r: seq<string>)
    ensures |r| == |cols|
    ensures forall i :: 0 <= i < |r| ==> r[i] == cols[i].1
  {
    if cols == [] then [] else [cols[0].1] + Labels(cols[1..])
  }

  /** The position of `key` among the columns, if it is there. */
  function KeyIndex(cols: Columns, key: string): (r: Option<nat>)
    ensures r.Some? ==> r.value < |cols| && cols[r.value].0 == key
    ensures r.None? <==> key !in Keys(cols)
  {
    if cols == [] then None
    else if cols[0].0 == key then Some(0)
    else
      match KeyIndex(cols[1..], key)
      case None =>
        assert Keys(cols) == [cols[0].0] + Keys(cols[1..]);
        None
      case Some(j) => Some(j + 1)
  }

  /** `d[key] = label`: an existing key keeps its place and takes the new heading; a new key goes last. */
  function Put(cols: Columns, key: string, heading: string): (r: Columns)
    ensures Keys(r) == if key in Keys(cols) then Keys(cols) else Keys(cols) + [key]
    ensures key !in Keys(cols) ==> r == cols + [(key, heading)]
    ensures key in Keys(cols) ==> |r| == |cols|
    ensures forall i :: 0 <= i < |cols| && cols[i].0 != key ==> r[i] == cols[i]
    ensures (key, heading) in r
  {
    match KeyIndex(cols, key)
    case None => cols + [(key, heading)]
    case Some(j) => cols[j := (key, heading)]
  }

  lemma PutKeys(cols: Columns, key: string, heading: string)
    ensures forall k :: k in Keys(Put(cols, key, heading)) <==> k in Keys(cols) || k == key
  {
  }

  /**
   * The field a lookup path names: each segment is looked up in the current model; a
   * relation moves on to the related model, any other field ends the walk. `None` is
   * `FieldDoesNotExist`.
   */
  function ResolvePath(models: map<string, Schema>, model: string, bits: seq<string>): (r: Option<Field>)
    requires bits != []
    ensures r.Some? ==> exists m :: m in models && r.value in models[m]
    ensures |bits| == 1 ==> r == GetField(ModelFields(models, model), bits[0])
    ensures GetField(ModelFields(models, model), bits[0]).None? ==> r.None?
    ensures var first := GetField(ModelFields(models, model), bits[0]);
      first.Some? && !first.value.kind.ForeignKey? ==> r == first
    decreases |bits|
  {
    var schema := ModelFields(models, model);
    match GetField(schema, bits[0])
    case None => None
    case Some(f) =>
      if f.kind.ForeignKey? && |bits| > 1 then ResolvePath(models, f.kind.target, bits[1..])
      else Some(f)
  }

  /** A relation that is not the last segment hands the rest of the path to the related model. */
  lemma ResolveThroughRelation(models: map<string, Schema>, model: string, bits: seq<string>)
    requires |bits| > 1
    requires GetField(ModelFields(models, model), bits[0]).Some?
    requires GetField(ModelFields(models, model), bits[0]).value.kind.ForeignKey?
    ensures ResolvePath(models, model, bits) ==
      ResolvePath(models, GetField(ModelFields(models, model), bits[0]).value.kind.target, bits[1..])
  {
  }

  /** The field one entry of `fields` names: a path with `__` is walked, any other is looked up directly. */
  function PathField(models: map<string, Schema>, model: string, path: string): (r: Option<Field>)
    ensures !Contains(path, PATH_SEPARATOR) ==> r == GetField(ModelFields(models, model), path)
    ensures Contains(path, PATH_SEPARATOR) ==> r == ResolvePath(models, model, Split(path, PATH_SEPARATOR))
  {
    if Contains(path, PATH_SEPARATOR) then ResolvePath(models, model, Split(path, PATH_SEPARATOR))
    else GetField(ModelFields(models, model), path)
  }

  /** The label for one entry of `fields`: a pair's own label; a path's field label, or the path itself when it resolves to nothing. */
  function SpecLabel(models: map<string, Schema>, model: string, spec: Spec, verboseNames: bool): (r: string)
    ensures spec.Labelled? ==> r == spec.heading
    ensures spec.Path? && PathField(models, model, spec.path).None? ==> r == spec.path
    ensures spec.Path? && PathField(models, model, spec.path).Some? ==>
      r == FieldLabel(PathField(models, model, spec.path).value, verboseNames)
  {
    match spec
    case Labelled(_, l) => l
    case Path(p) =>
      var f := PathField(models, model, p);
      if f.None? then p else FieldLabel(f.value, verboseNames)
  }

  /** A plain name that is no field of the model, such as a method's name, is its own heading. */
  lemma UnresolvedNameIsItsOwnLabel(models: map<string, Schema>, model: string, name: string, verboseNames: bool)
    requires !Contains(name, PATH_SEPARATOR) && GetField(ModelFields(models, model), name).None?
    ensures SpecLabel(models, model, Path(name), verboseNames) == name
  {
  }

  /** `link__name` through a relation is labelled by the related model's field `name`, or is its own heading when that model has none. */
  lemma RelatedPathLabel(models: map<string, Schema>, model: string, link: string, name: string, verboseNames: bool)
    requires !Contains(link, PATH_SEPARATOR) && link != "" && link[|link| - 1] != '_'
    requires !Contains(name, PATH_SEPARATOR)
    requires GetField(ModelFields(models, model), link).Some?
    requires GetField(ModelFields(models, model), link).value.kind.ForeignKey?
    ensures var target := GetField(ModelFields(models, model), link).value.kind.target;
      var g := GetField(ModelFields(models, target), name);
      SpecLabel(models, model, Path(link + PATH_SEPARATOR + name), verboseNames) ==
        if g.None? then link + PATH_SEPARATOR + name else FieldLabel(g.value, verboseNames)
  {
    var path := link + PATH_SEPARATOR + name;
    SplitAfterLink(link, name);
    assert OccursAt(path, PATH_SEPARATOR, |link|);
    ResolveThroughRelation(models, model, [link, name]);
  }

  /** Splitting `link__name` at `__` gives the two names back, when neither holds a separator. */
  lemma SplitAfterLink(link: string, name: string)
    requires !Contains(link, PATH_SEPARATOR) && link != "" && link[|link| - 1] != '_'
    requires !Contains(name, PATH_SEPARATOR)
    ensures Split(link + PATH_SEPARATOR + name, PATH_SEPARATOR) == [link, name]
  {
    var path := link + PATH_SEPARATOR + name;
    FindAfterSeparatorFree(link, name);
    assert path[..|link|] == link && path[|link| + 2..] == name;
    SplitWithoutSeparator(name, PATH_SEPARATOR);
  }

  /** The column for one entry of `fields`: keyed by its path, with a pair's own label or the label of the field a path resolves to. */
  function SpecColumn(models: map<string, Schema>, model: string, spec: Spec, verboseNames: bool): (r: (string, string))
    ensures r.0 == spec.path
    ensures spec.Labelled? ==> r.1 == spec.heading
    ensures spec.Path? ==> r.1 == (match PathField(models, model, spec.path)
      case None => spec.path
      case Some(f) => FieldLabel(f, verboseNames))
  {
    (spec.path, SpecLabel(models, model, spec, verboseNames))
  }

  /** All of a model's fields as columns, in declaration order. */
  function AllColumns(schema: Schema, verboseNames: bool): (r: Columns)
    ensures Keys(r) == Names(schema)
    ensures forall i :: 0 <= i < |r| ==> r[i] == (schema[i].name, FieldLabel(schema[i], verboseNames))
  {
    if schema == [] then [] else [(schema[0].name, FieldLabel(schema[0], verboseNames))] + AllColumns(schema[1..], verboseNames)
  }

  /** The columns of an exclusion list, as the intended code reads it: every field whose name is not excluded, in declaration order. */
  function ColumnsExcluding(schema: Schema, exclude: seq<string>, verboseNames: bool): (r: Columns)
    ensures forall k :: k in Keys(r) <==> k in Names(schema) && k !in exclude
    ensures Keys(r) == Without(Names(schema), exclude)
    ensures forall c :: c in r ==> c in AllColumns(schema, verboseNames)
  {
    if schema == [] then []
    else
      var rest := ColumnsExcluding(schema[1..], exclude, verboseNames);
      assert Names(schema) == [schema[0].name] + Names(schema[1..]);
      if schema[0].name in exclude then rest
      else
        var r := [(schema[0].name, FieldLabel(schema[0], verboseNames))] + rest;
        assert Keys(r) == [schema[0].name] + Keys(rest);
        r
  }

  /**
   * As written, the exclusion test compares field objects with the excluded names; a field
   * never equals a string, so no field is excluded.
   */
  function ColumnsExcludingAsWritten(schema: Schema, exclude: seq<string>, verboseNames: bool): (r: Columns)
    ensures r == AllColumns(schema, verboseNames)
  {
    AllColumns(schema, verboseNames)
  }

  /** The `fields` loop, as a definition. */
  function SpecColumns(models: map<string, Schema>, model: string, specs: seq<Spec>, verboseNames: bool): Columns
  {
    if specs == [] then []
    else
      var spec := specs[|specs| - 1];
      Put(SpecColumns(models, model, specs[..|specs| - 1], verboseNames), spec.path, SpecLabel(models, model, spec, verboseNames))
  }

  /** The `fields` loop: one column per entry, in order; a repeated path keeps its first place and its last label. */
  method BuildSpecColumns(models: map<string, Schema>, model: string, specs: seq<Spec>, verboseNames: bool) returns (cols: Columns)
    ensures cols == SpecColumns(models, model, specs, verboseNames)
  {
    cols := [];
    var k := 0;
    while k < |specs|
      invariant 0 <= k <= |specs|
      invariant cols == SpecColumns(models, model, specs[..k], verboseNames)
    {
      var c := SpecColumn(models, model, specs[k], verboseNames);
      assert specs[..k + 1][..k] == specs[..k];
      cols := Put(cols, c.0, c.1);
      k := k + 1;
    }
    assert specs[..k] == specs;
  }

  /** Every listed path becomes a column and nothing else does. */
  lemma SpecColumnsKeys(models: map<string, Schema>, model: string, specs: seq<Spec>, verboseNames: bool)
    ensures forall k :: k in Keys(SpecColumns(models, model, specs, verboseNames)) <==> exists i :: 0 <= i < |specs| && specs[i].path == k
  {
    forall k
      ensures k in Keys(SpecColumns(models, model, specs, verboseNames)) <==> exists i :: 0 <= i < |specs| && specs[i].path == k
    {
      SpecColumnsKey(models, model, specs, verboseNames, k);
      assert k in Paths(specs) <==> exists i :: 0 <= i < |specs| && specs[i].path == k;
    }
  }

  /** The paths of the specs, in order. */
  function Paths(specs: seq<Spec>): (r: seq<string>)
    ensures |r| == |specs| && forall i :: 0 <= i < |specs| ==> r[i] == specs[i].path
  {
    seq(|specs|, i requires 0 <= i < |specs| => specs[i].path)
  }

  lemma {:induction false} SpecColumnsKey(models: map<string, Schema>, model: string, specs: seq<Spec>, verboseNames: bool, k: string)
    ensures k in Keys(SpecColumns(models, model, specs, verboseNames)) <==> k in Paths(specs)
  {
    if specs != [] {
      var n := |specs| - 1;
      var front := specs[..n];
      SpecColumnsKey(models, model, front, verboseNames, k);
      PutKeys(SpecColumns(models, model, front, verboseNames), specs[n].path, SpecLabel(models, model, specs[n], verboseNames));
      PathsSnoc(specs);
    }
  }

  lemma PathsSnoc(specs: seq<Spec>)
    requires specs != []
    ensures Paths(specs) == Paths(specs[..|specs| - 1]) + [specs[|specs| - 1].path]
  {
  }


  /** The action's options after falling back on the admin's attributes and the defaults. */
  datatype CsvOptions = CsvOptions(fields: seq<Spec>, exclude: seq<string>, header: bool, verboseNames: bool)

  /** Each option: the argument when given, else the admin's attribute, else the default (no fields, no exclusions, header and verbose names on). */
  function ResolveOptions(fields: Option<seq<Spec>>, exclude: Option<seq<string>>, header: Option<bool>, verboseNames: Option<bool>,
                          adminFields: Option<seq<Spec>>, adminExclude: Option<seq<string>>, adminHeader: Option<bool>, adminVerbose: Option<bool>): (r: CsvOptions)
    ensures fields.Some? ==> r.fields == fields.value
    ensures fields.None? ==> r.fields == adminFields.GetOr([])
    ensures exclude.Some? ==> r.exclude == exclude.value
    ensures exclude.None? ==> r.exclude == adminExclude.GetOr([])
    ensures header.Some? ==> r.header == header.value
    ensures header.None? ==> r.header == adminHeader.GetOr(true)
    ensures verboseNames.Some? ==> r.verboseNames == verboseNames.value
    ensures verboseNames.None? ==> r.verboseNames == adminVerbose.GetOr(true)
  {
    CsvOptions(
      if fields.Some? then fields.value else adminFields.GetOr([]),
      if exclude.Some? then exclude.value else adminExclude.GetOr([]),
      if header.Some? then header.value else adminHeader.GetOr(true),
      if verboseNames.Some? then verboseNames.value else adminVerbose.GetOr(true))
  }

  /** The column precedence: an exclusion list wins, then a field list, then every model field. */
  function ChooseColumns(models: map<string, Schema>, model: string, opts: CsvOptions): (r: Columns)
    ensures opts.exclude != [] ==> r == ColumnsExcluding(ModelFields(models, model), opts.exclude, opts.verboseNames)
    ensures opts.exclude == [] && opts.fields != [] ==> r == SpecColumns(models, model, opts.fields, opts.verboseNames)
    ensures opts.exclude == [] && opts.fields == [] ==> r == AllColumns(ModelFields(models, model), opts.verboseNames)
  {
    if opts.exclude != [] then ColumnsExcluding(ModelFields(models, model), opts.exclude, opts.verboseNames)
    else if opts.fields != [] then SpecColumns(models, model, opts.fields, opts.verboseNames)
    else AllColumns(ModelFields(models, model), opts.verboseNames)
  }

  function ModelFields(models: map<string, Schema>, model: string): Schema
  {
    if model in models then models[model] else []
  }

  /** The download name: the given one, else the model's `app_label.model_name` with dots made underscores; `.csv` is appended. */
  function FileName(appLabel: string, modelName: string, filename: Option<string>): (r: string)
    ensures filename.Some? ==> r == filename.value + ".csv"
    ensures filename.None? ==> r == ReplaceChar(appLabel + "." + modelName, '.', '_') + ".csv"
  {
    (if filename.Some? then filename.value else ReplaceChar(appLabel + "." + modelName, '.', '_')) + ".csv"
  }

  /** One output row: every column's value, in column order. */
  function RowCells(obj: Obj, keys: seq<string>): (r: Result<seq<string>, string>)
    ensures r.Ok? ==> |r.value| == |keys|
  {
    if keys == [] then Ok([])
    else match (PrepFieldSpec(obj, keys[0]), RowCells(obj, keys[1..]))
      case (Ok(c), Ok(rest)) => Ok([c] + rest)
      case (Err(e), _) => Err(e)
      case (_, Err(e)) => Err(e)
  }

  /** A row holds, column by column, the value of each path, and fails exactly when some path fails. */
  lemma {:induction false} RowCellsMeaning(obj: Obj, keys: seq<string>)
    ensures var r := RowCells(obj, keys);
      (r.Ok? ==> forall i :: 0 <= i < |keys| ==> PrepFieldSpec(obj, keys[i]) == Ok(r.value[i])) &&
      (r.Err? <==> exists i :: 0 <= i < |keys| && PrepFieldSpec(obj, keys[i]).Err?)
  {
    if RowCells(obj, keys).Ok? {
      RowCellsValues(obj, keys);
    }
    RowCellsFails(obj, keys);
  }

  lemma {:induction false} RowCellsValues(obj: Obj, keys: seq<string>)
    requires RowCells(obj, keys).Ok?
    ensures forall i :: 0 <= i < |keys| ==> PrepFieldSpec(obj, keys[i]) == Ok(RowCells(obj, keys).value[i])
  {
    if keys != [] {
      var tail := RowCells(obj, keys[1..]);
      assert tail.Ok?;
      RowCellsValues(obj, keys[1..]);
      var r := RowCells(obj, keys).value;
      assert PrepFieldSpec(obj, keys[0]) == Ok(r[0]) && r[1..] == tail.value;
      forall i | 1 <= i < |keys|
        ensures PrepFieldSpec(obj, keys[i]) == Ok(r[i])
      {
        assert keys[i] == keys[1..][i - 1] && r[i] == tail.value[i - 1];
      }
    }
  }

  lemma {:induction false} RowCellsFails(obj: Obj, keys: seq<string>)
    ensures RowCells(obj, keys).Err? <==> exists i :: 0 <= i < |keys| && PrepFieldSpec(obj, keys[i]).Err?
  {
    if keys != [] {
      RowCellsFails(obj, keys[1..]);
      assert forall i :: 1 <= i < |keys| ==> keys[i] == keys[1..][i - 1];
    }
  }

  /** The rows the action writes: the labels when a header is wanted, then one row per object, in queryset order. */
  function CsvRows(cols: Columns, header: bool, queryset: seq<Obj>): Result<seq<seq<string>>, string>
  {
    if queryset == [] then Ok(if header then [Labels(cols)] else [])
    else match (CsvRows(cols, header, queryset[..|queryset| - 1]), RowCells(queryset[|queryset| - 1], Keys(cols)))
      case (Ok(rows), Ok(row)) => Ok(rows + [row])
      case (Err(e), _) => Err(e)
      case (_, Err(e)) => Err(e)
  }

  /** `download_as_csv`: the file name and the rows written, or the error a missing attribute raises. */
  method DownloadAsCsv(models: map<string, Schema>, appLabel: string, model: string, queryset: seq<Obj>,
                       opts: CsvOptions, filename: Option<string>) returns (name: string, rows: Result<seq<seq<string>>, string>)
    ensures name == FileName(appLabel, model, filename)
    ensures rows == CsvRows(ChooseColumns(models, model, opts), opts.header, queryset)
  {
    var cols := ChooseColumns(models, model, opts);
    name := FileName(appLabel, model, filename);
    var keys := Keys(cols);
    rows := Ok(if opts.header then [Labels(cols)] else []);
    var k := 0;
    while k < |queryset|
      invariant 0 <= k <= |queryset|
      invariant rows == CsvRows(cols, opts.header, queryset[..k])
    {
      assert queryset[..k + 1][..k] == queryset[..k];
      if rows.Ok? {
        var row := RowCells(queryset[k], keys);
        rows := if row.Ok? then Ok(rows.value + [row.value]) else Err(row.error);
      }
      k := k + 1;
    }
    assert queryset[..k] == queryset;
  }

  /** A successful export has the header row iff asked for, then exactly one row per object, each as wide as the columns. */
  lemma CsvRowsShape(cols: Columns, header: bool, queryset: seq<Obj>)
    requires CsvRows(cols, header, queryset).Ok?
    ensures var rows := CsvRows(cols, header, queryset).value;
      |rows| == |queryset| + (if header then 1 else 0) &&
      (header ==> rows[0] == Labels(cols)) &&
      forall k :: 0 <= k < |queryset| ==> RowCells(queryset[k], Keys(cols)) == Ok(rows[k + (if header then 1 else 0)])
  {
    CsvRowsLength(cols, header, queryset);
    forall k | 0 <= k < |queryset|
      ensures RowCells(queryset[k], Keys(cols)) == Ok(CsvRows(cols, header, queryset).value[k + (if header then 1 else 0)])
    {
      CsvRowAt(cols, header, queryset, k);
    }
  }

  lemma {:induction false} CsvRowsLength(cols: Columns, header: bool, queryset: seq<Obj>)
    requires CsvRows(cols, header, queryset).Ok?
    ensures var rows := CsvRows(cols, header, queryset).value;
      |rows| == |queryset| + (if header then 1 else 0) && (header ==> rows[0] == Labels(cols))
  {
    if queryset != [] {
      CsvRowsLength(cols, header, queryset[..|queryset| - 1]);
    }
  }

  lemma {:induction false} CsvRowAt(cols: Columns, header: bool, queryset: seq<Obj>, k: nat)
    requires CsvRows(cols, header, queryset).Ok? && k < |queryset|
    ensures var rows := CsvRows(cols, header, queryset).value;
      k + (if header then 1 else 0) < |rows| &&
      RowCells(queryset[k], Keys(cols)) == Ok(rows[k + (if header then 1 else 0)])
  {
    CsvRowsLength(cols, header, queryset);
    var n := |queryset| - 1;
    var front := queryset[..n];
    CsvRowsLength(cols, header, front);
    if k < n {
      CsvRowAt(cols, header, front, k);
      assert front[k] == queryset[k];
    }
  }

  /** With an exclusion list, the code as written exports every field; the intended code drops the excluded ones. */
  lemma ExcludeFinding(schema: Schema, verboseNames: bool)
    requires |schema| >= 1
    ensures Keys(ColumnsExcludingAsWritten(schema, [schema[0].name], verboseNames)) == Names(schema)
    ensures schema[0].name !in Keys(ColumnsExcluding(schema, [schema[0].name], verboseNames))
  {
  }
}
