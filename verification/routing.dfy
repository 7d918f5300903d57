/**
 * The filter-and-route step of the file flow: directories and other
 * non-regular entries are dropped, and every regular file is sent to the
 * `csv`, `txt` or `errors` channel according to its lower-cased extension.
 */
module Routing {

  import opened Wrappers
  import opened Ascii
  import opened FileNames

  /** One entry listed in the input directory. */
  datatype FileEntry = FileEntry(name: string, isFile: bool)

  /** The three channels a file can be routed to. */
  datatype Category = Csv | Txt | Error

  /** The filter of the flow: only regular files go on to routing. */
  predicate PassesFilter(e: FileEntry) {
    e.isFile
  }

  /** The `when` on the lower-cased extension: `csv`, `txt`, or anything else. */
  function CategoryOf(ext: string): Category {
    var key := Lower(ext);
    if key == "csv" then Csv else if key == "txt" then Txt else Error
  }

  /** The routing decision for one entry: the category of its file-name extension. */
  function Classify(e: FileEntry): Category {
    CategoryOf(Extension(e.name))
  }

  /**
   * Classification is case-insensitive and total: `csv` and `txt` in any mix
   * of cases pick their own channel, every other extension picks `errors`.
   */
  lemma CategoryIgnoresCase(ext: string)
    ensures CategoryOf(ext) == Csv <==> EqualsIgnoreCase(ext, "csv")
    ensures CategoryOf(ext) == Txt <==> EqualsIgnoreCase(ext, "txt")
    ensures CategoryOf(ext) == Error <==> !EqualsIgnoreCase(ext, "csv") && !EqualsIgnoreCase(ext, "txt")
  {
    LowerIsCaseInsensitive(ext, "csv");
    LowerIsCaseInsensitive(ext, "txt");
    assert Lower("csv") == "csv";
    assert Lower("txt") == "txt";
  }

  /**
   * The decision in terms of the independent definitions: an entry whose
   * extension is `ext` goes to `csv` or `txt` exactly when `ext` spells that
   * channel's name ignoring case, and to `errors` otherwise.
   */
  lemma ClassifyCharacterized(e: FileEntry, ext: string)
    requires IsExtension(e.name, ext)
    ensures Classify(e) == Csv <==> EqualsIgnoreCase(ext, "csv")
    ensures Classify(e) == Txt <==> EqualsIgnoreCase(ext, "txt")
    ensures Classify(e) == Error <==> !EqualsIgnoreCase(ext, "csv") && !EqualsIgnoreCase(ext, "txt")
  {
    ExtensionCharacterized(e.name, ext);
    CategoryIgnoresCase(ext);
  }

  /** Filter, then route: the channel an entry reaches, if any. */
  function Dispatch(e: FileEntry): Option<Category> {
    if PassesFilter(e) then Some(Classify(e)) else None
  }

  /**
   * Filter and route against the independent definitions: an entry reaches
   * no channel exactly when it is not a regular file; a regular file reaches
   * `csv` or `txt` exactly when its extension spells that name ignoring case,
   * and `errors` otherwise.
   */
  lemma DispatchCharacterized(e: FileEntry)
    ensures Dispatch(e) == None <==> !e.isFile
    ensures Dispatch(e) == Some(Csv) <==> e.isFile && EqualsIgnoreCase(Extension(e.name), "csv")
    ensures Dispatch(e) == Some(Txt) <==> e.isFile && EqualsIgnoreCase(Extension(e.name), "txt")
    ensures Dispatch(e) == Some(Error)
        <==> e.isFile && !EqualsIgnoreCase(Extension(e.name), "csv") && !EqualsIgnoreCase(Extension(e.name), "txt")
  {
    ClassifyCharacterized(e, Extension(e.name));
  }

  /** What each channel has received so far, oldest first. */
  datatype Channels = Channels(csv: seq<FileEntry>, txt: seq<FileEntry>, errors: seq<FileEntry>) {

    function Queue(cat: Category): seq<FileEntry> {
      match cat
      case Csv => csv
      case Txt => txt
      case Error => errors
    }

    /** Appends `e` to the channel of `cat`; the other channels are untouched. */
    function Send(cat: Category, e: FileEntry): (r: Channels)
      ensures r.Queue(cat) == Queue(cat) + [e]
      ensures forall other :: other != cat ==> r.Queue(other) == Queue(other)
    {
      match cat
      case Csv => this.(csv := csv + [e])
      case Txt => this.(txt := txt + [e])
      case Error => this.(errors := errors + [e])
    }
  }

  const NoMessages: Channels := Channels([], [], [])

  /** One message through the flow: filtered out, or appended to its channel. */
  function RouteOne(ch: Channels, e: FileEntry): Channels {
    match Dispatch(e)
    case None => ch
    case Some(cat) => ch.Send(cat, e)
  }

  /** Messages through the flow one at a time, in order. */
  function RouteInto(ch: Channels, entries: seq<FileEntry>): Channels
    decreases |entries|
  {
    if entries == [] then ch else RouteInto(RouteOne(ch, entries[0]), entries[1..])
  }

  /** The channels after a batch of entries has gone through the flow. */
  function RouteAll(entries: seq<FileEntry>): Channels {
    RouteInto(NoMessages, entries)
  }

  /** Does `e` belong on the channel of `cat`? */
  predicate BelongsTo(e: FileEntry, cat: Category) {
    Dispatch(e) == Some(cat)
  }

  /**
   * The reference definition of one channel's contents: the entries that
   * belong to it, in the order they came.
   */
  function Select(entries: seq<FileEntry>, cat: Category): (r: seq<FileEntry>)
    ensures |r| <= |entries|
    ensures forall e :: e in r ==> e in entries && BelongsTo(e, cat)
  {
    if entries == [] then []
    else (if BelongsTo(entries[0], cat) then [entries[0]] else []) + Select(entries[1..], cat)
  }

  /** The regular files among the entries, in order. */
  function FilesOnly(entries: seq<FileEntry>): (r: seq<FileEntry>)
    ensures forall e :: e in r ==> e in entries && e.isFile
  {
    if entries == [] then []
    else (if PassesFilter(entries[0]) then [entries[0]] else []) + FilesOnly(entries[1..])
  }

  /** The filter keeps every regular file as often as it occurs, and nothing else. */
  lemma {:induction false} FilesOnlyCount(entries: seq<FileEntry>, e: FileEntry)
    ensures multiset(FilesOnly(entries))[e] == if e.isFile then multiset(entries)[e] else 0
  {
    if entries != [] {
      FilesOnlyCount(entries[1..], e);
      assert entries == [entries[0]] + entries[1..];
    }
  }

  /**
   * FIFO per category: everything that arrived earlier reaches a channel
   * before everything that arrived later.
   */
  lemma {:induction false} SelectConcat(a: seq<FileEntry>, b: seq<FileEntry>, cat: Category)
    ensures Select(a + b, cat) == Select(a, cat) + Select(b, cat)
  {
    if a == [] {
      assert a + b == b;
    } else {
      assert (a + b)[0] == a[0];
      assert (a + b)[1..] == a[1..] + b;
      SelectConcat(a[1..], b, cat);
    }
  }

  /** Routing one entry after another appends exactly the entries of each category. */
  lemma {:induction false} RouteIntoAppends(ch: Channels, entries: seq<FileEntry>, cat: Category)
    ensures RouteInto(ch, entries).Queue(cat) == ch.Queue(cat) + Select(entries, cat)
    decreases |entries|
  {
    if entries != [] {
      var e := entries[0];
      RouteIntoAppends(RouteOne(ch, e), entries[1..], cat);
      if BelongsTo(e, cat) {
        assert RouteOne(ch, e).Queue(cat) == ch.Queue(cat) + [e];
      } else {
        assert RouteOne(ch, e).Queue(cat) == ch.Queue(cat);
      }
    }
  }

  /**
   * Per-category order preservation: each channel holds exactly the
   * order-preserving selection of the input by that category.
   */
  lemma RouteAllIsSelect(entries: seq<FileEntry>, cat: Category)
    ensures RouteAll(entries).Queue(cat) == Select(entries, cat)
  {
    RouteIntoAppends(NoMessages, entries, cat);
  }

  /** Routing two batches in turn is routing their concatenation. */
  lemma {:induction false} RouteIntoConcat(ch: Channels, a: seq<FileEntry>, b: seq<FileEntry>)
    ensures RouteInto(RouteInto(ch, a), b) == RouteInto(ch, a + b)
    decreases |a|
  {
    if a == [] {
      assert a + b == b;
    } else {
      assert (a + b)[1..] == a[1..] + b;
      RouteIntoConcat(RouteOne(ch, a[0]), a[1..], b);
    }
  }

  /**
   * Classification is total and exclusive: the three selections together
   * hold every regular file exactly as often as the input does, and nothing else.
   */
  lemma {:induction false} SelectPartitionsFiles(entries: seq<FileEntry>)
    ensures multiset(Select(entries, Csv)) + multiset(Select(entries, Txt)) + multiset(Select(entries, Error))
         == multiset(FilesOnly(entries))
  {
    if entries != [] {
      var e, rest := entries[0], entries[1..];
      SelectPartitionsFiles(rest);
      SelectPartitionsOne(e);
    }
  }

  /** A single entry: a regular file belongs to exactly one category, anything else to none. */
  lemma SelectPartitionsOne(e: FileEntry)
    ensures multiset(if BelongsTo(e, Csv) then [e] else [])
          + multiset(if BelongsTo(e, Txt) then [e] else [])
          + multiset(if BelongsTo(e, Error) then [e] else [])
         == multiset(if PassesFilter(e) then [e] else [])
  {
  }

  /**
   * Every regular file reaches exactly one channel and nothing else does:
   * the channels partition the files of the batch.
   */
  lemma RouteAllPartitionsFiles(entries: seq<FileEntry>)
    ensures multiset(RouteAll(entries).csv) + multiset(RouteAll(entries).txt) + multiset(RouteAll(entries).errors)
         == multiset(FilesOnly(entries))
  {
    RouteAllIsSelect(entries, Csv);
    RouteAllIsSelect(entries, Txt);
    RouteAllIsSelect(entries, Error);
    SelectPartitionsFiles(entries);
  }

  /** Every channel holds only regular files of its own category taken from the input. */
  lemma RoutedEntriesBelong(entries: seq<FileEntry>, cat: Category, e: FileEntry)
    requires e in RouteAll(entries).Queue(cat)
    ensures e in entries && e.isFile && Classify(e) == cat
  {
    RouteAllIsSelect(entries, cat);
  }

  /** Every entry of the input that belongs to a channel is in that channel's selection. */
  lemma {:induction false} SelectKeeps(entries: seq<FileEntry>, e: FileEntry, cat: Category)
    requires e in entries && BelongsTo(e, cat)
    ensures e in Select(entries, cat)
  {
    if entries[0] != e {
      SelectKeeps(entries[1..], e, cat);
    }
  }

  /** Every regular file of the input reaches the channel of its category. */
  lemma EveryFileRouted(entries: seq<FileEntry>, e: FileEntry)
    requires e in entries && e.isFile
    ensures e in RouteAll(entries).Queue(Classify(e))
  {
    SelectKeeps(entries, e, Classify(e));
    RouteAllIsSelect(entries, Classify(e));
  }

  /** An entry that is not a regular file reaches no channel. */
  lemma NonFilesReachNoChannel(entries: seq<FileEntry>, e: FileEntry, cat: Category)
    requires !e.isFile
    ensures e !in RouteAll(entries).Queue(cat)
  {
    RouteAllIsSelect(entries, cat);
  }

  /** Filter before route: dropping the non-files first changes no channel. */
  lemma FilterThenRoute(entries: seq<FileEntry>, cat: Category)
    ensures RouteAll(FilesOnly(entries)).Queue(cat) == RouteAll(entries).Queue(cat)
  {
    RouteAllIsSelect(entries, cat);
    RouteAllIsSelect(FilesOnly(entries), cat);
    SelectOfFilesOnly(entries, cat);
  }

  /** Selecting a category from the regular files alone selects the same entries as from the whole input. */
  lemma {:induction false} SelectOfFilesOnly(entries: seq<FileEntry>, cat: Category)
    ensures Select(FilesOnly(entries), cat) == Select(entries, cat)
  {
    if entries != [] {
      var head := if PassesFilter(entries[0]) then [entries[0]] else [];
      SelectConcat(head, FilesOnly(entries[1..]), cat);
      SelectOfFilesOnly(entries[1..], cat);
    }
  }

  /**
   * Case-insensitivity: an entry whose name ends in a dot and a
   * dot-free extension goes to `csv` or `txt` exactly when that extension
   * spells the name of the channel in any mix of cases, and to `errors` otherwise.
   */
  lemma ClassifyByExtension(stem: string, ext: string, isFile: bool)
    requires '.' !in ext
    ensures Classify(FileEntry(stem + "." + ext, isFile)) == Csv <==> EqualsIgnoreCase(ext, "csv")
    ensures Classify(FileEntry(stem + "." + ext, isFile)) == Txt <==> EqualsIgnoreCase(ext, "txt")
    ensures Classify(FileEntry(stem + "." + ext, isFile)) == Error
        <==> !EqualsIgnoreCase(ext, "csv") && !EqualsIgnoreCase(ext, "txt")
  {
    ExtensionOfJoin(stem, ext);
    CategoryIgnoresCase(ext);
  }

  /** A name without a dot has the empty extension and goes to `errors`. */
  lemma NoDotIsError(e: FileEntry)
    requires '.' !in e.name
    ensures Classify(e) == Error
  {
  }

  /** The decision depends on the extension only, up to case. */
  lemma SameExtensionSameCategory(a: FileEntry, b: FileEntry)
    requires EqualsIgnoreCase(Extension(a.name), Extension(b.name))
    ensures Classify(a) == Classify(b)
  {
    LowerIsCaseInsensitive(Extension(a.name), Extension(b.name));
  }

  /** `a.CSV` goes to the `csv` channel. */
  lemma UpperCaseCsvExample()
    ensures Classify(FileEntry("a.CSV", true)) == Csv
  {
    assert Extension("a.CSV") == "CSV";
    assert Lower("CSV") == "csv";
    assert CategoryOf("CSV") == Csv;
  }

  /** `a.Csv` goes to the `csv` channel. */
  lemma MixedCaseCsvExample()
    ensures Classify(FileEntry("a.Csv", true)) == Csv
  {
    assert Extension("a.Csv") == "Csv";
    assert Lower("Csv") == "csv";
    assert CategoryOf("Csv") == Csv;
  }

  /** `b.TXT` goes to the `txt` channel. */
  lemma UpperCaseTxtExample()
    ensures Classify(FileEntry("b.TXT", true)) == Txt
  {
    assert Extension("b.TXT") == "TXT";
    assert Lower("TXT") == "txt";
    assert CategoryOf("TXT") == Txt;
  }

  /** `image.png` goes to the `errors` channel. */
  lemma OtherExtensionExample()
    ensures Classify(FileEntry("image.png", true)) == Error
  {
    assert Extension("image.png") == "png";
    assert Lower("png") == "png";
    assert CategoryOf("png") == Error;
  }

  /**
   * A file named `.csv` has extension `csv`, so the route would send it to
   * the `csv` channel (whether the adapter lists hidden files is not modelled).
   */
  lemma HiddenCsvExample()
    ensures Classify(FileEntry(".csv", true)) == Csv
  {
    assert Extension(".csv") == "csv";
    assert Lower("csv") == "csv";
    assert CategoryOf("csv") == Csv;
  }
}
