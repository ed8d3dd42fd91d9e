/** The export endpoint without its renderers: which orders go into the file,
    chosen by the caller's stored role and the optional `user_id`, and the
    media type, file name and Content-Disposition header for each format. */
module Exports {
  import opened Common
  import opened Models
  import opened Schemas
  import opened Db
  import opened CrudOrders

  /** Python truthiness of an optional integer: present and not zero. */
  predicate TruthyId(id: Option<int>) {
    id.Some? && id.value != 0
  }

  /** The orders `export_orders` renders: a non-admin gets their own; an admin
      gets those of `user_id` when it is truthy, and all of them otherwise. */
  function SelectOrders(db: Session, caller: User, req: ExportRequest): (r: seq<Order>)
    reads db
    ensures caller.role != Admin ==> forall o :: o in r <==> o in db.orders && o.userId == caller.id
    ensures caller.role == Admin && TruthyId(req.userId) ==>
              forall o :: o in r <==> o in db.orders && o.userId == req.userId.value
    ensures caller.role == Admin && !TruthyId(req.userId) ==>
              |r| == |db.orders| && forall o :: o in r <==> o in db.orders
    ensures db.Valid() ==> NewestFirst(r)
  {
    if caller.role == Admin then
      if TruthyId(req.userId) then OrdersOf(db, req.userId.value) else GetAllOrders(db)
    else
      GetOrdersByUser(db, caller)
  }

  /** A non-admin cannot widen the export: `user_id` is ignored. */
  lemma ClientExportIgnoresUserId(db: Session, caller: User, a: ExportRequest, b: ExportRequest)
    requires caller.role != Admin
    ensures SelectOrders(db, caller, a) == SelectOrders(db, caller, b)
  {
  }

  /** For an admin, `user_id = 0` is falsy and exports everything, like no
      `user_id` at all. */
  lemma AdminZeroMeansAll(db: Session, caller: User, f: ExportFormat)
    requires caller.role == Admin
    ensures SelectOrders(db, caller, ExportRequest(f, Some(0))) == SelectOrders(db, caller, ExportRequest(f, None))
    ensures SelectOrders(db, caller, ExportRequest(f, None)) == GetAllOrders(db)
  {
  }

  /** An admin naming their own id gets what a non-admin with the same id
      would get. */
  lemma AdminOwnIdLikeClient(db: Session, caller: User, f: ExportFormat)
    requires caller.role == Admin && caller.id != 0
    ensures SelectOrders(db, caller, ExportRequest(f, Some(caller.id))) == SelectOrders(db, caller.(role := Cliente), ExportRequest(f, None))
  {
  }

  const CsvType := "text/csv"
  const XlsxType := "application/vnd.openxmlformats-officedocument.spreadsheetml.sheet"
  const PdfType := "application/pdf"

  /** The media type of the response for each format. */
  function MediaType(f: ExportFormat): (m: string)
    ensures m == CsvType <==> f == Csv
    ensures m == XlsxType <==> f == Excel
    ensures m == PdfType <==> f == Pdf
  {
    match f
    case Csv => CsvType
    case Excel => XlsxType
    case Pdf => PdfType
  }

  /** The file extension for each format, which agrees with its media type. */
  function Extension(f: ExportFormat): (e: string)
    ensures e == "csv" <==> MediaType(f) == CsvType
    ensures e == "xlsx" <==> MediaType(f) == XlsxType
    ensures e == "pdf" <==> MediaType(f) == PdfType
  {
    match f
    case Csv => "csv"
    case Excel => "xlsx"
    case Pdf => "pdf"
  }

  /** Reading a format back from a file extension. */
  function FormatOfExtension(ext: string): (r: Option<ExportFormat>)
    ensures r.Some? ==> Extension(r.value) == ext
  {
    if ext == "csv" then Some(Csv)
    else if ext == "xlsx" then Some(Excel)
    else if ext == "pdf" then Some(Pdf)
    else None
  }

  /** Each format has its own media type and its own extension, and the
      extension gives the format back. */
  lemma FormatsDistinguished(f: ExportFormat, g: ExportFormat)
    ensures FormatOfExtension(Extension(f)) == Some(f)
    ensures MediaType(f) == MediaType(g) <==> f == g
    ensures Extension(f) == Extension(g) <==> f == g
  {
    if f != g {
      assert MediaType(f)[|MediaType(f)| - 1] != MediaType(g)[|MediaType(g)| - 1] || |MediaType(f)| != |MediaType(g)|;
      assert Extension(f)[0] != Extension(g)[0];
    }
  }

  /** `orders_<timestamp>.<ext>`; the timestamp is the clock's ISO text. */
  function ExportFilename(stamp: string, f: ExportFormat): (name: string)
    ensures |name| == 8 + |stamp| + |Extension(f)|
    ensures name[..7] == "orders_" && name[7..7 + |stamp|] == stamp
    ensures name[|name| - |Extension(f)| - 1] == '.' && name[|name| - |Extension(f)|..] == Extension(f)
  {
    var name := "orders_" + stamp + "." + Extension(f);
    assert name[..7] == "orders_";
    assert name[7..7 + |stamp|] == stamp;
    assert name[|name| - |Extension(f)|..] == Extension(f);
    name
  }

  const DispositionPrefix := "attachment; filename=\""

  /** The `Content-Disposition` value: an attachment whose quoted file name is
      `filename`. */
  function ContentDisposition(filename: string): (h: string)
    ensures |h| == |DispositionPrefix| + |filename| + 1
    ensures h[..|DispositionPrefix|] == DispositionPrefix && h[|h| - 1] == '"'
    ensures h[|DispositionPrefix|..|h| - 1] == filename
  {
    DispositionPrefix + filename + "\""
  }

  /** The file name a Content-Disposition value of this shape carries. */
  function FilenameOf(header: string): (r: Option<string>)
    ensures r.Some? ==> ContentDisposition(r.value) == header
  {
    if |header| >= |DispositionPrefix| + 1 && header[..|DispositionPrefix|] == DispositionPrefix
       && header[|header| - 1] == '"'
    then
      assert header == DispositionPrefix + header[|DispositionPrefix|..|header| - 1] + "\"";
      Some(header[|DispositionPrefix|..|header| - 1])
    else None
  }

  lemma DispositionRoundTrip(filename: string)
    ensures FilenameOf(ContentDisposition(filename)) == Some(filename)
  {
    var h := ContentDisposition(filename);
    assert h[..|DispositionPrefix|] == DispositionPrefix;
    assert h[|DispositionPrefix|..|h| - 1] == filename;
  }

  /** What `export_orders` answers, apart from the rendered bytes. */
  datatype ExportResponse = ExportResponse(orders: seq<Order>, mediaType: string, filename: string, disposition: string)

  function ExportOrders(db: Session, caller: User, req: ExportRequest, stamp: string): (r: ExportResponse)
    reads db
    ensures r.orders == SelectOrders(db, caller, req)
    ensures r.mediaType == MediaType(req.format)
    ensures FilenameOf(r.disposition) == Some(r.filename)
    ensures |r.filename| > |Extension(req.format)|
            && FormatOfExtension(r.filename[|r.filename| - |Extension(req.format)|..]) == Some(req.format)
  {
    var name := ExportFilename(stamp, req.format);
    DispositionRoundTrip(name);
    FormatsDistinguished(req.format, req.format);
    assert name[|name| - |Extension(req.format)|..] == Extension(req.format);
    ExportResponse(SelectOrders(db, caller, req), MediaType(req.format), name, ContentDisposition(name))
  }
}
