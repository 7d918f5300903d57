/**
 * Where routed files are delivered: the `csv` and `txt` channels each feed
 * a flow that writes into its own sub-directory of the output directory;
 * nothing subscribes to the `errors` channel.
 */
module Delivery {

  import opened Wrappers
  import opened Ascii
  import opened FileNames
  import opened Routing

  /** A file-system path, as the sequence of its name segments. */
  datatype Path = Path(segments: seq<string>) {

    /** The path `File(this, name)`. */
    function Child(name: string): Path {
      Path(segments + [name])
    }

    /** This path names an entry directly inside `parent`. */
    predicate IsChildOf(parent: Path) {
      && |segments| == |parent.segments| + 1
      && segments[..|parent.segments|] == parent.segments
    }

    /** This path is `ancestor` or lies somewhere below it. */
    predicate IsWithin(ancestor: Path) {
      && |ancestor.segments| <= |segments|
      && segments[..|ancestor.segments|] == ancestor.segments
    }
  }

  /**
   * The directories of the flow. In the source both hang off the desktop of
   * the user's home directory; the home directory itself is a parameter here.
   */
  datatype Layout = Layout(input: Path, output: Path)

  function LayoutUnder(home: Path): (l: Layout)
    ensures l.input.IsWithin(home) && l.output.IsWithin(home)
    ensures !l.output.IsWithin(l.input) && !l.input.IsWithin(l.output)
  {
    var desktop := home.Child("Desktop");
    var l := Layout(desktop.Child("in"), desktop.Child("out"));
    assert l.input.segments[|desktop.segments|] != l.output.segments[|desktop.segments|];
    l
  }

  /** The output directory fed by a category's channel, if any flow subscribes to it. */
  function Destination(output: Path, cat: Category): (r: Option<Path>)
    ensures r.Some? <==> cat != Error
    ensures r.Some? ==> r.value.IsChildOf(output)
    ensures r.Some? ==> CategoryOf(r.value.segments[|output.segments|]) == cat
  {
    match cat
    case Csv =>
      assert Lower("csv") == "csv";
      Some(output.Child("csv"))
    case Txt =>
      assert Lower("txt") == "txt";
      Some(output.Child("txt"))
    case Error => None
  }

  /** Delivered categories have pairwise distinct destinations. */
  lemma DestinationInjective(output: Path, c1: Category, c2: Category)
    requires Destination(output, c1).Some?
    requires Destination(output, c1) == Destination(output, c2)
    ensures c1 == c2
  {
  }

  /**
   * No destination lies inside the watched input directory.
   */
  lemma DestinationOutsideInput(home: Path, cat: Category)
    requires Destination(LayoutUnder(home).output, cat).Some?
    ensures !Destination(LayoutUnder(home).output, cat).value.IsWithin(LayoutUnder(home).input)
  {
    var l := LayoutUnder(home);
    var d := Destination(l.output, cat).value;
    assert d.segments[|home.segments| + 1] == "out";
    assert l.input.segments[|home.segments| + 1] == "in";
  }

  /** What becomes of one listed entry. */
  datatype Disposition =
    | Filtered               // not a regular file: dropped by the filter
    | Delivered(dir: Path)   // written into this directory
    | Undeliverable          // routed to `errors`, which no flow consumes

  /** One entry through filter, route and the subscribed flows. */
  function Handle(output: Path, e: FileEntry): (d: Disposition)
    ensures d == Filtered <==> !e.isFile
    ensures d == Undeliverable <==> e.isFile && Classify(e) == Error
    ensures d.Delivered? ==> d.dir.IsChildOf(output) && Destination(output, Classify(e)) == Some(d.dir)
    ensures d.Delivered? ==> d.dir == output.Child(Lower(Extension(e.name)))
  {
    match Dispatch(e)
    case None => Filtered
    case Some(cat) =>
      match Destination(output, cat)
      case Some(dir) => Delivered(dir)
      case None => Undeliverable
  }

  /** Two files written to the same directory were classified alike. */
  lemma SameDirectorySameCategory(output: Path, a: FileEntry, b: FileEntry)
    requires Handle(output, a).Delivered?
    requires Handle(output, a) == Handle(output, b)
    ensures Classify(a) == Classify(b)
  {
    DestinationInjective(output, Classify(a), Classify(b));
  }
}
