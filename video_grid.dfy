/**
 * The video grid: a loading skeleton, an empty state, a vertical list of
 * horizontal cards or a responsive grid of cards.
 */
module VideoGrid {
  import opened Wrappers
  import opened VideoCard

  /** The column counts the grid accepts. */
  type Columns = c: int | 2 <= c <= 6 witness 4

  /** The responsive column classes for each column count. */
  function GridCols(columns: Columns): string {
    match columns
    case 2 => "grid-cols-1 md:grid-cols-2"
    case 3 => "grid-cols-1 md:grid-cols-2 lg:grid-cols-3"
    case 4 => "grid-cols-1 md:grid-cols-2 lg:grid-cols-3 xl:grid-cols-4"
    case 5 => "grid-cols-1 md:grid-cols-2 lg:grid-cols-3 xl:grid-cols-4 2xl:grid-cols-5"
    case 6 => "grid-cols-1 md:grid-cols-2 lg:grid-cols-3 xl:grid-cols-4 2xl:grid-cols-5 3xl:grid-cols-6"
  }

  /** The map is total over the column counts and gives each its own class. */
  lemma GridColsInjective(a: Columns, b: Columns)
    ensures GridCols(a) == GridCols(b) <==> a == b
    ensures |GridCols(a)| > 0
  {
    assert |GridCols(2)| == 26 && |GridCols(3)| == 41 && |GridCols(4)| == 56;
    assert |GridCols(5)| == 72 && |GridCols(6)| == 88;
    if GridCols(a) == GridCols(b) {
      assert |GridCols(a)| == |GridCols(b)|;
    }
  }

  datatype Props = Props(
    videos: Option<seq<Video>>,
    loading: bool,
    variant: Variant,
    columns: Columns,
    showAuthor: bool,
    showCategory: bool)

  /** The props of a grid given only its videos. */
  function DefaultProps(videos: seq<Video>): Props {
    Props(Some(videos), false, Default, 4, true, false)
  }

  /** One placeholder: a thumbnail block, tall or short, and a number of text lines. */
  datatype Placeholder = Placeholder(tallThumbnail: bool, lines: nat)

  /** The props handed to one video card. */
  datatype CardProps = CardProps(video: Video, variant: Variant, showAuthor: bool, showCategory: bool)

  datatype View =
    | Skeleton(gridClass: Option<string>, placeholders: seq<Placeholder>)
    | EmptyState
    | List(cards: seq<CardProps>)
    | Grid(columnsClass: string, cards: seq<CardProps>)

  /** `VideoGridSkeleton`: a list of rows for horizontal cards, otherwise a grid of card-shaped placeholders. */
  function SkeletonView(columns: Columns, variant: Variant): View {
    var count := columns * 2;
    if variant == Horizontal then Skeleton(None, seq(count, _ => Placeholder(false, 3)))
    else
      var compact := variant == Compact;
      Skeleton(Some(GridCols(columns)), seq(count, _ => Placeholder(!compact, if compact then 2 else 3)))
  }

  function Cards(videos: seq<Video>, variant: Variant, showAuthor: bool, showCategory: bool): seq<CardProps> {
    seq(|videos|, i requires 0 <= i < |videos| => CardProps(videos[i], variant, showAuthor, showCategory))
  }

  function Render(p: Props): View {
    if p.loading then SkeletonView(p.columns, p.variant)
    else if p.videos.None? || |p.videos.value| == 0 then EmptyState
    else if p.variant == Horizontal then List(Cards(p.videos.value, Horizontal, p.showAuthor, p.showCategory))
    else Grid(GridCols(p.columns), Cards(p.videos.value, p.variant, p.showAuthor, p.showCategory))
  }

  /** Loading always shows twice the column count of placeholders, even when videos are present. */
  lemma LoadingShowsSkeleton(p: Props)
    requires p.loading
    ensures Render(p).Skeleton? && |Render(p).placeholders| == p.columns * 2
    ensures Render(p).gridClass.None? <==> p.variant == Horizontal
    ensures Render(p).gridClass.Some? ==> Render(p).gridClass.value == GridCols(p.columns)
  {
  }

  /** The empty state appears exactly when not loading and the videos are missing or empty. */
  lemma EmptyStateRule(p: Props)
    ensures Render(p) == EmptyState <==> !p.loading && (p.videos.None? || p.videos.value == [])
  {
  }

  /** Otherwise there is one card per video, in order, with the grid's options passed through. */
  lemma OneCardPerVideo(p: Props)
    requires !p.loading && p.videos.Some? && p.videos.value != []
    ensures Render(p).List? <==> p.variant == Horizontal
    ensures Render(p).Grid? <==> p.variant != Horizontal
    ensures Render(p).Grid? ==> Render(p).columnsClass == GridCols(p.columns)
    ensures var cards := Render(p).cards;
      |cards| == |p.videos.value| &&
      forall i :: 0 <= i < |cards| ==> cards[i] == CardProps(p.videos.value[i], p.variant, p.showAuthor, p.showCategory)
  {
  }

  /** With only videos given, a grid of four columns of default cards showing authors but not categories. */
  lemma DefaultsRender(videos: seq<Video>)
    requires videos != []
    ensures Render(DefaultProps(videos)) == Grid(GridCols(4), Cards(videos, Default, true, false))
    ensures Render(DefaultProps(videos).(loading := true)).Skeleton?
    ensures |Render(DefaultProps(videos).(loading := true)).placeholders| == 8
  {
  }
}
