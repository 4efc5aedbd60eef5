/**
 * Bullet statistics of a page: the content is cut into chunks at every
 * bullet marker (the cutting is a regular expression and is an input here),
 * the first chunk is the primary bullet, and the later chunks are counted as
 * content bullets or blank bullets.
 */
module Bullets {
  import opened PyStr

  /** The stripped non-blank chunks, in order. */
  function ContentChunks(chunks: seq<string>): (r: seq<string>)
    ensures |r| <= |chunks|
    ensures forall k :: 0 <= k < |r| ==> r[k] != [] && IsStripped(r[k])
    decreases |chunks|
  {
    if chunks == [] then []
    else (if Strip(chunks[0]) != [] then [Strip(chunks[0])] else []) + ContentChunks(chunks[1..])
  }

  /** How many chunks are blank once stripped. */
  function BlankCount(chunks: seq<string>): (n: nat)
    ensures n <= |chunks|
    decreases |chunks|
  {
    if chunks == [] then 0
    else (if Strip(chunks[0]) == [] then 1 else 0) + BlankCount(chunks[1..])
  }

  /** Every later chunk is counted exactly once, as a content bullet or as a blank one. */
  lemma {:induction false} ChunksCounted(chunks: seq<string>)
    ensures |ContentChunks(chunks)| + BlankCount(chunks) == |chunks|
    decreases |chunks|
  {
    if chunks != [] {
      ChunksCounted(chunks[1..]);
    }
  }

  lemma {:induction false} ContentChunksSnoc(chunks: seq<string>, c: string)
    ensures ContentChunks(chunks + [c]) == ContentChunks(chunks) + (if Strip(c) != [] then [Strip(c)] else [])
    decreases |chunks|
  {
    if chunks == [] {
      assert chunks + [c] == [c];
      assert [c][1..] == [];
    } else {
      ContentChunksSnoc(chunks[1..], c);
      assert (chunks + [c])[0] == chunks[0];
      assert (chunks + [c])[1..] == chunks[1..] + [c];
    }
  }

  lemma {:induction false} BlankCountSnoc(chunks: seq<string>, c: string)
    ensures BlankCount(chunks + [c]) == BlankCount(chunks) + (if Strip(c) == [] then 1 else 0)
    decreases |chunks|
  {
    if chunks == [] {
      assert chunks + [c] == [c];
      assert [c][1..] == [];
    } else {
      BlankCountSnoc(chunks[1..], c);
      assert (chunks + [c])[0] == chunks[0];
      assert (chunks + [c])[1..] == chunks[1..] + [c];
    }
  }

  lemma CountStep(chunks: seq<string>, i: nat)
    requires 1 <= i < |chunks|
    ensures ContentChunks(chunks[1..i + 1]) == ContentChunks(chunks[1..i]) + (if Strip(chunks[i]) != [] then [Strip(chunks[i])] else [])
    ensures BlankCount(chunks[1..i + 1]) == BlankCount(chunks[1..i]) + (if Strip(chunks[i]) == [] then 1 else 0)
  {
    assert chunks[1..i + 1] == chunks[1..i] + [chunks[i]];
    ContentChunksSnoc(chunks[1..i], chunks[i]);
    BlankCountSnoc(chunks[1..i], chunks[i]);
  }

  /** One pass of that loop: a blank bullet is counted, any other is kept stripped. */
  method CountBullet(kept: seq<string>, blank: nat, bullet: string) returns (kept': seq<string>, blank': nat)
    ensures kept' == kept + (if Strip(bullet) != [] then [Strip(bullet)] else [])
    ensures blank' == blank + (if Strip(bullet) == [] then 1 else 0)
  {
    var stripped := Strip(bullet);
    if stripped == [] {
      kept', blank' := kept, blank + 1;
    } else {
      kept', blank' := kept + [stripped], blank;
    }
  }

  /** The `for bullet in all_bullets[1:]` loop: the content bullets and the number of blank ones. */
  method CountLaterBullets(chunks: seq<string>) returns (kept: seq<string>, blank: nat)
    requires |chunks| >= 1
    ensures kept == ContentChunks(chunks[1..])
    ensures blank == BlankCount(chunks[1..])
  {
    kept, blank := [], 0;
    var i := 1;
    while i < |chunks|
      invariant 1 <= i <= |chunks|
      invariant kept == ContentChunks(chunks[1..i])
      invariant blank == BlankCount(chunks[1..i])
    {
      CountStep(chunks, i);
      kept, blank := CountBullet(kept, blank, chunks[i]);
      i := i + 1;
    }
    assert chunks[1..i] == chunks[1..];
  }

  /** A primary bullet holds page properties unless it is blank or starts with "#". */
  predicate PageProperties(primary: string)
  {
    Strip(primary) != [] && !StartsWith(Strip(primary), "#")
  }

  /** A page whose first line is a heading or a tag has no page properties. */
  lemma HashPrimaryHasNoProperties(primary: string)
    requires Strip(primary) != [] && Strip(primary)[0] == '#'
    ensures !PageProperties(primary)
  {
    assert Strip(primary)[..1] == "#";
  }

  /** `LogseqBullets`: the dataclass that computes a page's bullet statistics. */
  class LogseqBullets {
    var content: string
    var primaryBullet: string
    var allBullets: seq<string>
    var contentBullets: seq<string>
    var charCount: nat
    var bulletCount: nat
    var bulletCountEmpty: nat
    var hasPageProperties: bool

    /**
     * `__post_init__`, with `chunks` the bullet pattern's split of `content`:
     * the fields start at their defaults and the steps run in their order.
     */
    constructor(content: string, chunks: seq<string>)
      ensures this.content == content && charCount == |content|
      ensures allBullets == (if content != [] then chunks else [])
      ensures |allBullets| == 0 ==> primaryBullet == [] && bulletCount == 0 && bulletCountEmpty == 0
      ensures |allBullets| == 1 ==>
                primaryBullet == Strip(allBullets[0]) && contentBullets == []
                && bulletCount == (if Strip(allBullets[0]) != [] then 1 else 0)
                && bulletCountEmpty == (if Strip(allBullets[0]) != [] then 0 else 1)
      ensures |allBullets| > 1 ==>
                primaryBullet == Strip(allBullets[0])
                && contentBullets == ContentChunks(allBullets[1..])
                && bulletCount == |contentBullets|
                && bulletCount + bulletCountEmpty == |allBullets| - 1
      ensures hasPageProperties <==> PageProperties(primaryBullet)
    {
      this.content := content;
      primaryBullet := "";
      allBullets := [];
      contentBullets := [];
      charCount := 0;
      bulletCount := 0;
      bulletCountEmpty := 0;
      hasPageProperties := false;
      new;
      charCount := |content|;
      if content != [] {
        allBullets := chunks;
      }
      GetPrimaryBullet();
      if |allBullets| > 1 {
        ChunksCounted(allBullets[1..]);
      }
      IsPrimaryBulletPageProperties();
    }

    /** `get_primary_bullet`: the counts build on the values the fields already hold. */
    method GetPrimaryBullet()
      modifies this
      ensures content == old(content) && allBullets == old(allBullets) && charCount == old(charCount)
      ensures hasPageProperties == old(hasPageProperties)
      ensures |allBullets| == 0 ==>
                primaryBullet == old(primaryBullet) && contentBullets == old(contentBullets)
                && bulletCount == old(bulletCount) && bulletCountEmpty == old(bulletCountEmpty)
      ensures |allBullets| == 1 ==>
                contentBullets == old(contentBullets)
                && (Strip(allBullets[0]) != [] ==>
                      primaryBullet == Strip(allBullets[0]) && bulletCount == 1 && bulletCountEmpty == old(bulletCountEmpty))
                && (Strip(allBullets[0]) == [] ==>
                      primaryBullet == old(primaryBullet) && bulletCount == old(bulletCount) && bulletCountEmpty == 1)
      ensures |allBullets| > 1 ==>
                primaryBullet == Strip(allBullets[0])
                && contentBullets == old(contentBullets) + ContentChunks(allBullets[1..])
                && bulletCount == old(bulletCount) + |ContentChunks(allBullets[1..])|
                && bulletCountEmpty == old(bulletCountEmpty) + BlankCount(allBullets[1..])
    {
      if |allBullets| == 1 {
        var primary := Strip(allBullets[0]);
        if primary != [] {
          primaryBullet := primary;
          bulletCount := 1;
        } else {
          bulletCountEmpty := 1;
        }
      } else if |allBullets| > 1 {
        primaryBullet := Strip(allBullets[0]);
        var later, blank := CountLaterBullets(allBullets);
        contentBullets := contentBullets + later;
        bulletCount := bulletCount + |later|;
        bulletCountEmpty := bulletCountEmpty + blank;
      }
    }

    /** `is_primary_bullet_page_properties`: only ever raises the flag. */
    method IsPrimaryBulletPageProperties()
      modifies this
      ensures hasPageProperties == (old(hasPageProperties) || PageProperties(primaryBullet))
      ensures content == old(content) && primaryBullet == old(primaryBullet) && allBullets == old(allBullets)
      ensures contentBullets == old(contentBullets) && charCount == old(charCount)
      ensures bulletCount == old(bulletCount) && bulletCountEmpty == old(bulletCountEmpty)
    {
      var bullet := Strip(primaryBullet);
      if bullet != [] && !StartsWith(bullet, "#") {
        hasPageProperties := true;
      }
    }
  }

  /**
   * The bullet counts of the older per-file code for a Markdown file: only a
   * split into more than one chunk counts, as (content bullets, blank bullets).
   */
  function OlderBulletCounts(chunks: seq<string>): (r: (nat, nat))
    ensures |chunks| <= 1 ==> r == (0, 0)
    ensures |chunks| > 1 ==> r.0 == |ContentChunks(chunks[1..])| && r.0 + r.1 == |chunks| - 1
  {
    if |chunks| > 1 then
      ChunksCounted(chunks[1..]);
      (|ContentChunks(chunks[1..])|, BlankCount(chunks[1..]))
    else (0, 0)
  }

  /** `bullet_density` of the first script: `char_count // bullet_count`, or 0 without bullets. */
  function BulletDensity(charCount: nat, bulletCount: nat): (d: nat)
    ensures bulletCount == 0 ==> d == 0
    ensures bulletCount > 0 ==> d * bulletCount <= charCount < (d + 1) * bulletCount
  {
    if bulletCount > 0 then charCount / bulletCount else 0
  }
}
