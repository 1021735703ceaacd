/**
  The parsed command line of `script/spider.py` and the choice of e-book
  formats it implies (`parse_types`).  Parsing itself is argparse's business;
  `RunArgs` is its result and `TypeGroup` is the outcome of the one
  mutually exclusive group the command line declares.
 */
module Args {
  import opened Wrappers

  /** The e-book formats `-t` accepts. */
  datatype Format = Pdf | Epub | Mobi

  /** The upload services `-u` accepts. */
  datatype UploadSvc = Drive | Dropbox | Scp

  /** The storage backends `-s` accepts. */
  datatype DbSvc = Firebase

  /** The notification channels `-n` accepts. */
  datatype NotifySvc = Gmail | Ifttt | Join

  /** The default of `-t`. */
  const DefaultFormat: Format := Pdf

  /** The constant `--all` stores into `args.types`. */
  const AllFormats: seq<Format> := [Pdf, Epub, Mobi]

  /** The attributes of argparse's namespace that the run reads. */
  datatype RunArgs = RunArgs(
    dev: bool,
    extras: bool,
    upload: Option<UploadSvc>,
    archive: bool,
    notify: Option<NotifySvc>,
    store: Option<DbSvc>,
    claimOnly: bool,
    bookType: Format,
    types: Option<seq<Format>>)

  /** The values argparse can leave in `type` and `types`: `--all` given
      (so `-t` was not, and `type` kept its default) or `--all` absent. */
  predicate ValidTypeSelection(bookType: Format, types: Option<seq<Format>>)
  {
    types.None? || (types == Some(AllFormats) && bookType == DefaultFormat)
  }

  /** The `(type, types)` pair argparse produces for `-t t` (when `t` is
      present) and `--all` (when `all` holds); `None` is the usage error
      argparse reports when both flags of the exclusive group are given. */
  function TypeGroup(t: Option<Format>, all: bool): (r: Option<(Format, Option<seq<Format>>)>)
    ensures r.None? <==> t.Some? && all
    ensures r.Some? ==> ValidTypeSelection(r.value.0, r.value.1)
    ensures r.Some? && t.Some? ==> r.value.0 == t.value
    ensures r.Some? ==> (r.value.1.Some? <==> all)
  {
    if t.Some? && all then None
    else if all then Some((DefaultFormat, Some(AllFormats)))
    else Some((if t.Some? then t.value else DefaultFormat, None))
  }

  /** The formats the download stage asks for. */
  function ParseTypes(args: RunArgs): (r: seq<Format>)
    ensures args.types.None? ==> r == [args.bookType]
    ensures ValidTypeSelection(args.bookType, args.types) ==> |r| > 0
    ensures ValidTypeSelection(args.bookType, args.types) ==> (r == AllFormats <==> args.types.Some?)
  {
    if args.types.None? then [args.bookType] else args.types.value
  }

  /** The formats downloaded for each combination of the `-t`/`--all` flags
      that argparse accepts: `-t t` gives `[t]`, nothing gives `[pdf]`, and
      `--all` gives all three formats in the order pdf, epub, mobi. */
  lemma SelectedFormats(t: Option<Format>, all: bool, args: RunArgs)
    requires TypeGroup(t, all) == Some((args.bookType, args.types))
    ensures !all && t.Some? ==> ParseTypes(args) == [t.value]
    ensures !all && t.None? ==> ParseTypes(args) == [Pdf]
    ensures all ==> ParseTypes(args) == [Pdf, Epub, Mobi]
    ensures |ParseTypes(args)| > 0
  {
  }
}
