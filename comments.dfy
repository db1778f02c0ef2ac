/** Threaded comments (tcc/models.py): a comment's `path` is the base 36 ids
    of its ancestors and of itself, each zero-padded to STEPLEN characters;
    depth, root and parents are read back from it. */
module Comments {
  import opened Outcomes
  import opened PySeq
  import opened Base36

  /** The defaults of tcc/settings.py. */
  const STEPLEN: nat := 6
  const MAX_DEPTH: int := 2
  const REPLY_LIMIT: int := 3
  const MAX_REPLIES: int := 50

  /** Ids that fit a path step: `zfill` pads but never truncates. */
  predicate StepIds(ids: seq<nat>)
  {
    forall i :: 0 <= i < |ids| ==> ids[i] < Pow36(STEPLEN)
  }

  /** One step of a path: `get_base36().zfill(STEPLEN)`, which reads back
      as the id. */
  function Chunk(id: nat): (c: string)
    requires id < Pow36(STEPLEN)
    ensures |c| == STEPLEN && Decode(c) == Ok(id)
  {
    PaddedRoundTrip(id, STEPLEN);
    ZFill(Encode(id), STEPLEN)
  }

  /** The path `_set_path` gives the last of `ids` when the others are its
      ancestors, root first. */
  function PathOf(ids: seq<nat>): string
    requires StepIds(ids)
  {
    if |ids| == 0 then "" else PathOf(ids[..|ids| - 1]) + Chunk(ids[|ids| - 1])
  }

  /** `get_depth`: the number of steps less one (Python 2 floor division). */
  function Depth(path: string): int
  {
    |path| / STEPLEN - 1
  }

  /** `get_root_path`: `path[0:STEPLEN]`. */
  function RootPath(path: string): string
  {
    Slice(path, 0, STEPLEN)
  }

  /** `get_root_id`: the root path read as base 36 (ValueError when it is
      not base 36 text). */
  function RootId(path: string): Result<nat>
  {
    Decode(RootPath(path))
  }

  /** `get_root_base36`: the root id written back in base 36. */
  function RootBase36(path: string): Result<string>
  {
    match RootId(path)
    case Ok(id) => Ok(Encode(id))
    case Err(e) => Err(e)
  }

  /** The parent paths `get_parents` looks up: the path cut into
      consecutive STEPLEN-long pieces (the last one may be shorter). */
  function Chunks(path: string): seq<string>
    decreases |path|
  {
    if |path| == 0 then [] else
      var n := Min(STEPLEN, |path|);
      [path[..n]] + Chunks(path[n..])
  }

  function Concat(parts: seq<string>): string
  {
    if |parts| == 0 then "" else parts[0] + Concat(parts[1..])
  }

  /** A path of k steps is k * STEPLEN long, so its depth is k - 1: a root
      has depth 0 and each reply level adds one. */
  lemma {:induction false} PathDepth(ids: seq<nat>)
    requires StepIds(ids)
    ensures |PathOf(ids)| == |ids| * STEPLEN
    ensures Depth(PathOf(ids)) == |ids| - 1
  {
    if |ids| > 0 {
      PathDepth(ids[..|ids| - 1]);
    }
  }

  /** A reply's path is its parent's path followed by its own step. */
  lemma ReplyPath(ids: seq<nat>, id: nat)
    requires StepIds(ids) && id < Pow36(STEPLEN)
    ensures StepIds(ids + [id])
    ensures PathOf(ids + [id]) == PathOf(ids) + Chunk(id)
    ensures Depth(PathOf(ids + [id])) == Depth(PathOf(ids)) + 1
  {
    assert (ids + [id])[..|ids|] == ids;
    PathDepth(ids);
    PathDepth(ids + [id]);
  }

  /** The root path of any comment is its root's step. */
  lemma {:induction false} PathStartsAtRoot(ids: seq<nat>)
    requires StepIds(ids) && |ids| > 0
    ensures RootPath(PathOf(ids)) == Chunk(ids[0])
  {
    PathDepth(ids);
    var p := PathOf(ids);
    if |ids| > 1 {
      PathStartsAtRoot(ids[..|ids| - 1]);
      var q := PathOf(ids[..|ids| - 1]);
      PathDepth(ids[..|ids| - 1]);
      assert p == q + Chunk(ids[|ids| - 1]);
      assert p[..STEPLEN] == q[..STEPLEN];
    } else {
      assert p == "" + Chunk(ids[0]);
    }
  }

  /** `get_root_id` and `get_root_base36` recover the root's id and its
      unpadded base 36 id (`root.get_base36()`) from the path alone. */
  lemma RootFromPath(ids: seq<nat>)
    requires StepIds(ids) && |ids| > 0
    ensures RootId(PathOf(ids)) == Ok(ids[0])
    ensures RootBase36(PathOf(ids)) == Ok(Encode(ids[0]))
  {
    PathStartsAtRoot(ids);
  }

  lemma {:induction false} ConcatChunks(path: string)
    ensures Concat(Chunks(path)) == path
    decreases |path|
  {
    if |path| > 0 {
      var n := Min(STEPLEN, |path|);
      ConcatChunks(path[n..]);
      assert path == path[..n] + path[n..];
    }
  }

  lemma {:induction false} ChunksAppend(p: string, q: string)
    requires |p| % STEPLEN == 0
    ensures Chunks(p + q) == Chunks(p) + Chunks(q)
    decreases |p|
  {
    if |p| > 0 {
      assert (p + q)[..STEPLEN] == p[..STEPLEN];
      assert (p + q)[STEPLEN..] == p[STEPLEN..] + q;
      ChunksAppend(p[STEPLEN..], q);
    } else {
      assert p + q == q;
    }
  }

  /** The parent paths of a comment are the steps of its ancestors and of
      itself, root first; each is a single step, so the lookup can only
      match root comments. */
  lemma {:induction false} ChunksOfPath(ids: seq<nat>)
    requires StepIds(ids)
    ensures |Chunks(PathOf(ids))| == |ids|
    ensures forall i :: 0 <= i < |ids| ==> Chunks(PathOf(ids))[i] == Chunk(ids[i])
    ensures forall i :: 0 <= i < |ids| ==> Depth(Chunks(PathOf(ids))[i]) == 0
  {
    if |ids| > 0 {
      var init := ids[..|ids| - 1];
      ChunksOfPath(init);
      PathDepth(init);
      var c := Chunk(ids[|ids| - 1]);
      ChunksAppend(PathOf(init), c);
      assert Chunks(c) == [c] by {
        assert c[..STEPLEN] == c && c[STEPLEN..] == "";
      }
    }
  }

  /** One turn of the `get_parents` loop. */
  lemma ChunksFrom(path: string, i: nat)
    requires i < |path|
    ensures Chunks(path[i..]) == [Slice(path, i, i + STEPLEN)] + Chunks(path[Min(i + STEPLEN, |path|)..])
  {
    var n := Min(STEPLEN, |path| - i);
    assert path[i..][..n] == path[i..i + n];
    assert path[i..][n..] == path[i + n..];
  }

  /** The dates of the replies that the limit keeps shown: strictly newest
      first. */
  predicate NewestFirst(dates: seq<int>)
  {
    forall i, j :: 0 <= i < j < |dates| ==> dates[i] > dates[j]
  }

  /** The replies dated at or after the limit `set_limit` picks are the
      REPLY_LIMIT newest when there are that many, and only the newest one
      when there are fewer. */
  lemma LimitShowsNewest(dates: seq<int>, limit: int)
    requires NewestFirst(dates) && |dates| > 0
    requires limit == if |dates| < REPLY_LIMIT then dates[0] else dates[REPLY_LIMIT - 1]
    ensures var k := if |dates| < REPLY_LIMIT then 1 else REPLY_LIMIT;
      forall i :: 0 <= i < |dates| ==> (dates[i] >= limit <==> i < k)
  {
    var k := if |dates| < REPLY_LIMIT then 1 else REPLY_LIMIT;
    forall i | 0 <= i < |dates|
      ensures dates[i] >= dates[k - 1] <==> i < k
    {
      if i < k - 1 {
        assert dates[i] > dates[k - 1];
      } else if i > k - 1 {
        assert dates[k - 1] > dates[i];
      }
    }
  }

  class Comment {
    var id: nat              // 0 until the first save (Django's None)
    var parent: Comment?
    var path: string
    var depth: int
    var isOpen: bool
    var childcount: int
    var limit: Option<int>   // a submit date; None for NULL
    var text: string         // the `comment` field

    /** `get_base36`: the id in base 36, which reads back as the id. Only a
        saved comment has an id; `int_to_base36(None)` raises. */
    function GetBase36(): (s: string)
      requires id > 0
      reads this
      ensures Canonical(s) && Decode(s) == Ok(id)
    {
      DecodeEncode(id);
      Encode(id)
    }

    /** `_set_path` (after the save that gave the comment its id): the
        parent's path followed by the comment's own step, and the depth read
        from it. */
    method SetPath()
      requires 0 < id < Pow36(STEPLEN)
      modifies this`path, this`depth
      ensures path == (if parent != null then old(parent.path) else "") + Chunk(id)
      ensures depth == Depth(path)
    {
      if parent != null {
        path := parent.path + Chunk(id);
      } else {
        path := Chunk(id);
      }
      depth := Depth(path);
    }

    /** `get_parents`: the paths to look up, or nothing without a parent. */
    method GetParents() returns (r: Option<seq<string>>)
      ensures r == if parent != null then Some(Chunks(path)) else None
      ensures r.Some? ==> Concat(r.value) == path
    {
      if parent == null {
        return None;
      }
      var paths: seq<string> := [];
      var l := |path|;
      var i := 0;
      while i < l
        invariant 0 <= i
        invariant paths + Chunks(path[Min(i, l)..]) == Chunks(path)
        decreases l - i
      {
        ChunksFrom(path, i);
        paths := paths + [Slice(path, i, i + STEPLEN)];
        i := i + STEPLEN;
      }
      assert Min(i, l) == l && path[l..] == "";
      assert paths + [] == paths;
      ConcatChunks(path);
      return Some(paths);
    }

    /** `set_limit` over the submit dates of the direct replies, newest
        first: the reply count, and the date replies are shown from; with
        no replies the limit stays as it was (`self.limit is None` there
        compares and assigns nothing). */
    method SetLimit(dates: seq<int>)
      modifies this`childcount, this`limit
      ensures childcount == |dates|
      ensures |dates| == 0 ==> limit == old(limit)
      ensures 0 < |dates| < REPLY_LIMIT ==> limit == Some(dates[0])
      ensures |dates| >= REPLY_LIMIT ==> limit == Some(dates[REPLY_LIMIT - 1])
    {
      var n := |dates|;
      childcount := n;
      if n == 0 {
      } else if n < REPLY_LIMIT {
        limit := Some(dates[0]);
      } else {
        limit := Some(dates[REPLY_LIMIT - 1]);
      }
    }

    /** `reply_allowed` */
    predicate ReplyAllowed()
      reads this
    {
      isOpen && childcount < MAX_REPLIES && depth < MAX_DEPTH - 1
    }

    /** `clean`: a new reply to a comment with MAX_REPLIES replies is refused,
        and so is a non-empty comment with nothing left once its markup is
        stripped (`markupOnly`, as `striptags(...).strip() == ""` finds). */
    function Clean(markupOnly: bool): (r: Outcome)
      reads this, parent
      ensures r.Fail? ==> r.error == ValidationError
      ensures parent != null && id == 0 && parent.childcount >= MAX_REPLIES ==> r.Fail?
      ensures text == "" && (parent == null || id != 0 || parent.childcount < MAX_REPLIES) ==> r == Pass
      ensures parent != null && parent.ReplyAllowed() ==> (r.Fail? <==> text != "" && markupOnly)
    {
      if parent != null && id == 0 && parent.childcount >= MAX_REPLIES then Fail(ValidationError)
      else if text != "" && markupOnly then Fail(ValidationError)
      else Pass
    }
  }

  /** Replies are allowed only on roots (with the default MAX_DEPTH), so a
      reply's path fills at most the MAX_DEPTH * STEPLEN characters of the
      path column. */
  lemma ReplyFitsPathColumn(c: Comment, ids: seq<nat>, id: nat)
    requires StepIds(ids) && |ids| > 0 && id < Pow36(STEPLEN)
    requires c.path == PathOf(ids) && c.depth == Depth(c.path) && c.ReplyAllowed()
    ensures |PathOf(ids + [id])| <= MAX_DEPTH * STEPLEN
  {
    PathDepth(ids);
    ReplyPath(ids, id);
    PathDepth(ids + [id]);
  }
}
