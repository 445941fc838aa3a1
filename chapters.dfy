/**
 * Chapters of the audiobook. Every chapter made gets its id from a
 * process-wide counter that is incremented first, so ids count up from 1
 * in creation order. The metadata groups an asset yields are turned into
 * chapters one after another, in the order they come.
 */
module Chapters {
  import opened Optional
  import TimeCodec

  /** A chapter: its id, its title, its start offset in the book (seconds) and its length in whole seconds. */
  datatype Chapter = Chapter(id: int, title: string, start: real, duration: int)

  /** The static `Chapter.counter`: the id of the last chapter made. */
  class ChapterCounter {
    var counter: int

    constructor ()
      ensures counter == 0
    {
      counter := 0;
    }

    /** `Chapter.init`: bump the counter, then use it as the new chapter's id. */
    method NewChapter(title: string, start: real, duration: int) returns (c: Chapter)
      modifies this
      ensures counter == old(counter) + 1
      ensures c == Chapter(counter, title, start, duration)
    {
      counter := counter + 1;
      c := Chapter(counter, title, start, duration);
    }
  }

  /** What one chapter metadata group of the asset provides: an optional title, the start and the length of its time range. */
  datatype ChapterMetadata = ChapterMetadata(title: Option<string>, start: real, length: real)

  /** Title of a group, "Chapter" when it has none. */
  function TitleOrDefault(title: Option<string>): string {
    match title
    case Some(t) => t
    case None => "Chapter"
  }

  ghost predicate IdsIncreasing(cs: seq<Chapter>) {
    forall i, j | 0 <= i < j < |cs| :: cs[i].id < cs[j].id
  }

  /** The ids of `cs` are `first`, `first + 1`, ... in order. */
  ghost predicate NumberedFrom(cs: seq<Chapter>, first: int) {
    forall i | 0 <= i < |cs| :: cs[i].id == first + i
  }

  /**
   * Two loads in a row: the second list is numbered on from where the first
   * stopped, so the two lists together have increasing ids and share none.
   */
  lemma SuccessiveLoadsDistinct(a: seq<Chapter>, b: seq<Chapter>, first: int)
    requires NumberedFrom(a, first) && NumberedFrom(b, first + |a|)
    ensures NumberedFrom(a + b, first)
    ensures IdsIncreasing(a + b)
    ensures forall i, j | 0 <= i < |a| && 0 <= j < |b| :: a[i].id != b[j].id
  {
    forall k | 0 <= k < |a + b|
      ensures (a + b)[k].id == first + k
    {
      if k >= |a| {
        assert (a + b)[k] == b[k - |a|];
      }
    }
  }

  /**
   * The loop of `loadChapters` over the metadata groups: each group becomes
   * a chapter, titled "Chapter" when it has no title and with its length
   * truncated to whole seconds, and takes the next id of the counter.
   */
  method ChaptersFromMetadata(counter: ChapterCounter, groups: seq<ChapterMetadata>) returns (chapters: seq<Chapter>)
    modifies counter
    ensures counter.counter == old(counter.counter) + |groups|
    ensures |chapters| == |groups|
    ensures forall i | 0 <= i < |groups| ::
      chapters[i] == Chapter(old(counter.counter) + i + 1, TitleOrDefault(groups[i].title),
                             groups[i].start, TimeCodec.Truncate(groups[i].length))
    ensures NumberedFrom(chapters, old(counter.counter) + 1)
    ensures IdsIncreasing(chapters)
  {
    chapters := [];
    for k := 0 to |groups|
      invariant counter.counter == old(counter.counter) + k
      invariant |chapters| == k
      invariant forall i | 0 <= i < k ::
        chapters[i] == Chapter(old(counter.counter) + i + 1, TitleOrDefault(groups[i].title),
                               groups[i].start, TimeCodec.Truncate(groups[i].length))
    {
      var group := groups[k];
      var chapter := counter.NewChapter(TitleOrDefault(group.title), group.start, TimeCodec.Truncate(group.length));
      chapters := chapters + [chapter];
    }
  }
}
