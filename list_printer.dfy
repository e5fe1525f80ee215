/**
 * The column fetchers of the resource-list printer: selecting a value by
 * attribute path, the two display transforms, and the per-collection
 * column table.
 */
module ListPrinter {
  import opened Wrappers
  import opened Text

  /**
   * A column fetcher for `path`: the selector for the path itself when
   * there is no transform, otherwise the transform applied to what the
   * selector finds. The attribute-path selector is supplied by the caller.
   */
  function Select<O(!new), V>(selector: string -> O -> V, path: string, transform: Option<V -> V>): (fetch: O -> V)
    ensures transform.None? ==> fetch == selector(path)
    ensures transform.Some? ==> forall o :: fetch(o) == transform.value(selector(path)(o))
  {
    var getter := selector(path);
    match transform
    case None => getter
    case Some(t) => (o: O) => t(getter(o))
  }

  /** The last `/`-separated token of a URI, usually the resource name; a missing or empty value is kept. */
  function NameOnly(value: Option<string>): (r: Option<string>)
    ensures value.None? ==> r.None?
    ensures value == Some("") ==> r == Some("")
    ensures r.Some? ==> '/' !in r.value
  {
    match value
    case None => None
    case Some(s) =>
      if s == "" then value
      else var pieces := Split(s, '/'); Some(pieces[|pieces| - 1])
  }

  /**
   * On a non-empty string the name is the text after the last `/`, or the
   * whole string when there is no `/`.
   */
  lemma NameOnlyIsLastToken(s: string)
    requires s != ""
    ensures var r := NameOnly(Some(s)).value;
      && EndsWith(s, r)
      && ('/' in s ==> |r| < |s| && s[|s| - |r| - 1] == '/')
      && ('/' !in s ==> r == s)
  {
    SplitLast(s, '/');
  }

  /** Taking the name of a name changes nothing. */
  lemma NameOnlyIdempotent(value: Option<string>)
    ensures NameOnly(NameOnly(value)) == NameOnly(value)
  {
    var r := NameOnly(value);
    if r.Some? && r.value != "" {
      assert Split(r.value, '/') == [r.value];
    }
  }

  /** The list transform: `default` for a missing or empty list, otherwise the items joined by `, `. */
  function CommaList(default: Option<string>, items: Option<seq<string>>): (r: Option<string>)
    ensures items.None? || items == Some([]) ==> r == default
  {
    if items.None? || items.value == [] then default else Some(Join(items.value, ", "))
  }

  /** A non-empty list is shown as its items in order, each followed by `, ` except the last. */
  lemma {:induction false} CommaListJoins(default: Option<string>, items: seq<string>)
    requires items != []
    ensures CommaList(default, Some(items)) == Some(Join(items, ", "))
    ensures |items| == 1 ==> CommaList(default, Some(items)) == Some(items[0])
    ensures |items| > 1 ==>
      CommaList(default, Some(items)).value == items[0] + ", " + CommaList(default, Some(items[1..])).value
    ensures StartsWith(CommaList(default, Some(items)).value, items[0])
  {
    var joined := Join(items, ", ");
    if |items| > 1 {
      assert joined == items[0] + (", " + Join(items[1..], ", "));
    }
    assert joined[..|items[0]|] == items[0];
  }

  // ---------------------------------------------------------------------
  // the column table
  // ---------------------------------------------------------------------

  /** Which transform a column applies to the selected value. */
  datatype ColumnTransform = Plain | NameOnlyTransform | CommaListTransform(default: string)

  /** A column: its header, the attribute path it selects and its transform. */
  datatype Column = Column(header: string, path: string, transform: ColumnTransform)

  const CollectionColumns: map<string, seq<Column>> := map[
    "compute.instances" := [
      Column("NAME", "name", Plain),
      Column("ZONE", "zone", NameOnlyTransform),
      Column("MACHINE_TYPE", "machineType", NameOnlyTransform),
      Column("INTERNAL_IP", "networkInterfaces[0].networkIP", Plain),
      Column("EXTERNAL_IP", "networkInterfaces[0].accessConfigs[0].natIP", Plain),
      Column("STATUS", "status", Plain)],
    "sql.backupRuns" := [
      Column("START", "startTime", Plain),
      Column("END", "endTime", Plain),
      Column("ERROR", "error.code", Plain),
      Column("STATUS", "status", Plain)],
    "sql.flags" := [
      Column("NAME", "name", Plain),
      Column("TYPE", "type", Plain),
      Column("ALLOWED_VALUES", "allowedStringValues", CommaListTransform(""))],
    "sql.instances" := [
      Column("NAME", "instance", Plain),
      Column("REGION", "region", Plain),
      Column("TIER", "settings.tier", Plain),
      Column("ADDRESS", "ipAddresses[0].ipAddress", Plain),
      Column("STATUS", "state", Plain)],
    "sql.operations" := [
      Column("OPERATION", "operation", Plain),
      Column("TYPE", "operationType", Plain),
      Column("START", "startTime", Plain),
      Column("END", "endTime", Plain),
      Column("ERROR", "error", Plain),
      Column("STATUS", "state", Plain)],
    "sql.sslCerts" := [
      Column("NAME", "commonName", Plain),
      Column("SHA1_FINGERPRINT", "sha1Fingerprint", Plain),
      Column("EXPIRATION", "expirationTime", Plain)],
    "developerprojects.projects" := [
      Column("PROJECT", "projectId", Plain),
      Column("TITLE", "title", Plain)]
  ]

  function Headers(columns: seq<Column>): (r: seq<string>)
    ensures |r| == |columns|
    ensures forall i :: 0 <= i < |r| ==> r[i] == columns[i].header
  {
    seq(|columns|, i requires 0 <= i < |columns| => columns[i].header)
  }

  /**
   * The header row used to print a collection. The column table is looked
   * up by collection name, so an unknown collection is an error; a known one
   * prints one distinct header per column of its table, in table order.
   */
  function PrintResourceList(collection: string): (r: Result<seq<string>, string>)
    ensures r.Ok? <==> collection in CollectionColumns
    ensures r.Ok? ==> |r.value| == |CollectionColumns[collection]| && |r.value| >= 2
    ensures r.Ok? ==> forall i :: 0 <= i < |r.value| ==> r.value[i] == CollectionColumns[collection][i].header
    ensures r.Ok? ==> forall i, j :: 0 <= i < j < |r.value| ==> r.value[i] != r.value[j]
    ensures r.Err? ==> r.error == collection
  {
    if collection in CollectionColumns then
      ColumnsWellFormed(collection);
      Ok(Headers(CollectionColumns[collection]))
    else Err(collection)
  }

  /** No printed table repeats a header, and every column selects a non-empty path. */
  lemma ColumnsWellFormed(collection: string)
    requires collection in CollectionColumns
    ensures var cols := CollectionColumns[collection];
      && (forall i, j :: 0 <= i < j < |cols| ==> cols[i].header != cols[j].header)
      && (forall i :: 0 <= i < |cols| ==> cols[i].path != "")
  {
  }

  /** The instance listing shows these columns in this order, and only the zone and machine type are shortened to names. */
  lemma InstanceColumns()
    ensures "compute.instances" in CollectionColumns
    ensures var cols := CollectionColumns["compute.instances"];
      && Headers(cols) == ["NAME", "ZONE", "MACHINE_TYPE", "INTERNAL_IP", "EXTERNAL_IP", "STATUS"]
      && forall i :: 0 <= i < |cols| ==> (cols[i].transform == NameOnlyTransform <==> i == 1 || i == 2)
  {
    var cols := CollectionColumns["compute.instances"];
    assert Headers(cols) == ["NAME", "ZONE", "MACHINE_TYPE", "INTERNAL_IP", "EXTERNAL_IP", "STATUS"];
  }
}
