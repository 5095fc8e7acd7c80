/**
 * The index store: markdown records (a YAML front-matter block between two
 * `---` markers, then a body) become entries of one vector collection,
 * either one file at a time (upsert) or by a full drop-and-rebuild.
 */
module Storage {
  import opened Wrappers
  import opened Text
  import opened Values

  const Delimiter := "---"

  type Frontmatter = map<string, Value>

  /** A markdown file as a directory listing yields it: its name without extension, and its text. */
  datatype MarkdownFile = MarkdownFile(stem: string, content: string)

  /** A file picked up by the rebuild, with the type its directory implies. */
  datatype Listed = Listed(file: MarkdownFile, defaultType: string)

  datatype Parsed = Parsed(frontmatter: Frontmatter, body: string)

  /** What the collection stores under one id. */
  datatype Entry = Entry(document: string, metadata: map<string, string>)

  /** `content` holds two non-overlapping `---` markers. */
  ghost predicate HasTwoDelimiters(content: string) {
    exists i, j :: OccursAt(content, Delimiter, i) && i + |Delimiter| <= j && OccursAt(content, Delimiter, j)
  }

  /** No `---` starts before position `n` of `s`. */
  predicate NoDelimiterBefore(s: string, n: int) {
    forall k :: 0 <= k < n ==> !OccursAt(s, Delimiter, k)
  }

  /**
   * Where `content.split("---", 2)` cuts: the leftmost `---`, and the
   * leftmost one after it that does not overlap it.
   */
  function Markers(content: string): (m: Option<(nat, nat)>)
    ensures m.Some? ==> OccursAt(content, Delimiter, m.value.0)
                        && m.value.0 + |Delimiter| <= m.value.1
                        && OccursAt(content, Delimiter, m.value.1)
  {
    match FindFrom(content, Delimiter, 0)
    case None => None
    case Some(i) =>
      match FindFrom(content, Delimiter, i + |Delimiter|)
      case None => None
      case Some(j) => Some((i, j))
  }

  /** The part between the markers is decoded, the part after the second one stripped. */
  function SplitAt(content: string, i: nat, j: nat, decode: string -> Frontmatter): (r: Option<Parsed>)
    requires i + |Delimiter| <= j <= |content| - |Delimiter|
    ensures r.None? <==> IsBlank(content[j + |Delimiter|..])
    ensures r.Some? ==> r.value.body != [] && !IsSpace(r.value.body[0])
                        && !IsSpace(r.value.body[|r.value.body| - 1])
  {
    var body := Strip(content[j + |Delimiter|..]);
    if body == "" then None else Some(Parsed(decode(content[i + |Delimiter|..j]), body))
  }

  /**
   * `_parse_markdown_file`: split at the first two `---` markers, decode the
   * middle part as front matter and strip the rest into the body; `None` when
   * there are fewer than two markers or the body is blank. `decode` stands
   * for `yaml.safe_load(..) or {}`.
   */
  function ParseMarkdown(content: string, decode: string -> Frontmatter): (r: Option<Parsed>)
    ensures r.Some? ==> HasTwoDelimiters(content)
    ensures r.Some? ==> r.value.body != [] && !IsSpace(r.value.body[0])
                        && !IsSpace(r.value.body[|r.value.body| - 1])
  {
    match Markers(content)
    case None => None
    case Some((i, j)) => SplitAt(content, i, j, decode)
  }

  /**
   * The split points are the first two markers: no `---` starts before the
   * first, and none starts between the end of the first and the second, so
   * any preamble before the first marker is discarded with it.
   */
  lemma MarkersAreFirstTwo(content: string)
    requires Markers(content).Some?
    ensures NoDelimiterBefore(content, Markers(content).value.0)
    ensures forall k :: Markers(content).value.0 + |Delimiter| <= k < Markers(content).value.1
                        ==> !OccursAt(content, Delimiter, k)
  {
  }

  /** Content with fewer than two `---` markers never parses. */
  lemma MalformedNeverParses(content: string, decode: string -> Frontmatter)
    requires !HasTwoDelimiters(content)
    ensures ParseMarkdown(content, decode) == None
  {
  }

  /**
   * A record laid out as `---`, front matter, `---`, rest parses back to the
   * decoded front matter and the stripped rest, whatever further `---`
   * markers the rest holds; a blank rest parses to `None`.
   */
  lemma ParseLayout(fmText: string, rest: string, decode: string -> Frontmatter)
    requires NoDelimiterBefore(fmText + Delimiter, |fmText|)
    ensures ParseMarkdown(Delimiter + fmText + Delimiter + rest, decode)
            == if IsBlank(rest) then None else Some(Parsed(decode(fmText), Strip(rest)))
  {
    var content := Delimiter + fmText + Delimiter + rest;
    var j := |Delimiter| + |fmText|;
    LayoutMarkers(fmText, rest);
    assert ParseMarkdown(content, decode) == SplitAt(content, 0, j, decode);
    LayoutParts(Delimiter, fmText, Delimiter, rest);
  }

  lemma LayoutParts(a: string, b: string, c: string, d: string)
    ensures (a + b + c + d)[|a|..|a| + |b|] == b
    ensures (a + b + c + d)[|a| + |b| + |c|..] == d
  {
    var s := a + b + c + d;
    forall k | 0 <= k < |b| ensures s[|a| + k] == b[k] {
      assert (a + b)[|a| + k] == b[k];
    }
    forall k | 0 <= k < |d| ensures s[|a| + |b| + |c| + k] == d[k] {
    }
  }

  /** In that layout the markers are the opening one and the one closing the front matter. */
  lemma LayoutMarkers(fmText: string, rest: string)
    requires NoDelimiterBefore(fmText + Delimiter, |fmText|)
    ensures Markers(Delimiter + fmText + Delimiter + rest) == Some((0, |Delimiter| + |fmText|))
  {
    var content := Delimiter + fmText + Delimiter + rest;
    var j := |Delimiter| + |fmText|;
    FindFromLocates(content, Delimiter, 0, 0);
    forall k | |Delimiter| <= k < j
      ensures !OccursAt(content, Delimiter, k)
    {
      assert content[k..k + |Delimiter|] == (fmText + Delimiter)[k - |Delimiter|..k];
      assert !OccursAt(fmText + Delimiter, Delimiter, k - |Delimiter|);
    }
    assert content[j..j + |Delimiter|] == Delimiter;
    FindFromLocates(content, Delimiter, |Delimiter|, j);
  }

  /** The front-matter field the id is read from. */
  function IdKey(defaultType: string): string {
    if defaultType == "knowledge" then "knowledge_id" else "session_id"
  }

  predicate FieldTruthy(fm: Frontmatter, key: string) {
    key in fm && Truthy(fm[key])
  }

  /**
   * `_build_doc_id` (then `str`): `knowledge_id` for knowledge records,
   * `session_id` otherwise, falling back to the file stem when that field
   * is missing or falsy.
   */
  function DocId(fm: Frontmatter, stem: string, defaultType: string): (id: string)
    ensures FieldTruthy(fm, IdKey(defaultType)) ==> id == Render(fm[IdKey(defaultType)])
    ensures !FieldTruthy(fm, IdKey(defaultType)) ==> id == stem
  {
    var key := IdKey(defaultType);
    if FieldTruthy(fm, key) then Render(fm[key]) else stem
  }

  /** The id never depends on the field of the other record kind. */
  lemma DocIdIgnoresOtherKind(fm: Frontmatter, stem: string, defaultType: string, v: Value)
    ensures var other := if defaultType == "knowledge" then "session_id" else "knowledge_id";
            DocId(fm[other := v], stem, defaultType) == DocId(fm, stem, defaultType)
  {
  }

  /**
   * The metadata block: `type` (front matter `type` if truthy, else the
   * default type), `timestamp` (as text, `""` when absent), and
   * `session_id` / `knowledge_id` exactly when the front matter has them.
   */
  function BuildMetadata(fm: Frontmatter, defaultType: string): (md: map<string, string>)
    ensures md.Keys == {"type", "timestamp"}
                       + (if "session_id" in fm then {"session_id"} else {})
                       + (if "knowledge_id" in fm then {"knowledge_id"} else {})
    ensures md["type"] == if FieldTruthy(fm, "type") then Render(fm["type"]) else defaultType
    ensures md["timestamp"] == if "timestamp" in fm then Render(fm["timestamp"]) else ""
    ensures "session_id" in fm ==> md["session_id"] == Render(fm["session_id"])
    ensures "knowledge_id" in fm ==> md["knowledge_id"] == Render(fm["knowledge_id"])
  {
    var docType := if FieldTruthy(fm, "type") then Render(fm["type"]) else defaultType;
    var timestamp := if "timestamp" in fm then Render(fm["timestamp"]) else "";
    var md := map["type" := docType, "timestamp" := timestamp];
    var md := if "session_id" in fm then md["session_id" := Render(fm["session_id"])] else md;
    if "knowledge_id" in fm then md["knowledge_id" := Render(fm["knowledge_id"])] else md
  }

  /** The id and entry one file contributes, if it parses. */
  function DeriveEntry(file: MarkdownFile, defaultType: string, decode: string -> Frontmatter): (r: Option<(string, Entry)>)
    ensures r.None? <==> ParseMarkdown(file.content, decode).None?
    ensures r.Some? ==> !IsBlank(r.value.1.document) && "type" in r.value.1.metadata
  {
    match ParseMarkdown(file.content, decode)
    case None => None
    case Some(p) =>
      Some((DocId(p.frontmatter, file.stem, defaultType), Entry(p.body, BuildMetadata(p.frontmatter, defaultType))))
  }

  /** The entries after upserting what one file derives, if anything. */
  function Place(entries: map<string, Entry>, derived: Option<(string, Entry)>): map<string, Entry> {
    match derived
    case None => entries
    case Some((id, e)) => entries[id := e]
  }

  /** The collection's entries after indexing one file into `entries`. */
  function IndexedInto(entries: map<string, Entry>, file: MarkdownFile, defaultType: string,
                       decode: string -> Frontmatter): map<string, Entry>
  {
    Place(entries, DeriveEntry(file, defaultType, decode))
  }

  lemma PlaceUpdatesOneId(entries: map<string, Entry>, derived: Option<(string, Entry)>)
    ensures var after := Place(entries, derived);
            match derived
            case None => after == entries
            case Some((id, e)) =>
              && after.Keys == entries.Keys + {id}
              && after[id] == e
              && forall k :: k in entries && k != id ==> after[k] == entries[k]
  {
  }

  lemma PlaceIdempotent(entries: map<string, Entry>, derived: Option<(string, Entry)>)
    ensures Place(Place(entries, derived), derived) == Place(entries, derived)
  {
  }

  /**
   * Indexing maps the derived id to its entry and leaves every other id as
   * it was; an unparseable file changes nothing.
   */
  lemma IndexingUpdatesOneId(entries: map<string, Entry>, file: MarkdownFile, defaultType: string,
                             decode: string -> Frontmatter)
    ensures var after := IndexedInto(entries, file, defaultType, decode);
            match DeriveEntry(file, defaultType, decode)
            case None => after == entries
            case Some((id, e)) =>
              && after.Keys == entries.Keys + {id}
              && after[id] == e
              && forall k :: k in entries && k != id ==> after[k] == entries[k]
  {
    PlaceUpdatesOneId(entries, DeriveEntry(file, defaultType, decode));
  }

  /** Indexing the same file twice gives the collection indexing it once gives. */
  lemma IndexingIdempotent(entries: map<string, Entry>, file: MarkdownFile, defaultType: string,
                           decode: string -> Frontmatter)
    ensures var once := IndexedInto(entries, file, defaultType, decode);
            IndexedInto(once, file, defaultType, decode) == once
  {
    PlaceIdempotent(entries, DeriveEntry(file, defaultType, decode));
  }

  /** Files in rebuild order: the sessions directory's, then the knowledge directory's. */
  function AllFiles(sessions: seq<MarkdownFile>, knowledge: seq<MarkdownFile>): (r: seq<Listed>)
    ensures |r| == |sessions| + |knowledge|
    ensures forall k :: 0 <= k < |sessions| ==> r[k] == Listed(sessions[k], "session")
    ensures forall k :: 0 <= k < |knowledge| ==> r[|sessions| + k] == Listed(knowledge[k], "knowledge")
  {
    seq(|sessions|, k requires 0 <= k < |sessions| => Listed(sessions[k], "session"))
    + seq(|knowledge|, k requires 0 <= k < |knowledge| => Listed(knowledge[k], "knowledge"))
  }

  /** The (id, entry) pairs the rebuild gathers from `files`, in order, skipping unparseable files. */
  function Collected(files: seq<Listed>, decode: string -> Frontmatter): seq<(string, Entry)>
  {
    if files == [] then []
    else
      var last := files[|files| - 1];
      Collected(files[..|files| - 1], decode)
      + match DeriveEntry(last.file, last.defaultType, decode)
        case None => []
        case Some(p) => [p]
  }

  lemma {:induction false} CollectedAppend(xs: seq<Listed>, ys: seq<Listed>, decode: string -> Frontmatter)
    ensures Collected(xs + ys, decode) == Collected(xs, decode) + Collected(ys, decode)
    decreases |ys|
  {
    if ys != [] {
      var n := |ys| - 1;
      var last := ys[n];
      var tail := match DeriveEntry(last.file, last.defaultType, decode) case None => [] case Some(p) => [p];
      assert (xs + ys)[..|xs + ys| - 1] == xs + ys[..n];
      assert (xs + ys)[|xs + ys| - 1] == last;
      assert Collected(xs + ys, decode) == Collected(xs + ys[..n], decode) + tail;
      assert Collected(ys, decode) == Collected(ys[..n], decode) + tail;
      CollectedAppend(xs, ys[..n], decode);
      assert (Collected(xs, decode) + Collected(ys[..n], decode)) + tail
          == Collected(xs, decode) + (Collected(ys[..n], decode) + tail);
    } else {
      assert xs + ys == xs;
    }
  }

  /** A file that does not parse contributes nothing to the rebuild, wherever it sits. */
  lemma UnparseableSkipped(xs: seq<Listed>, f: Listed, ys: seq<Listed>, decode: string -> Frontmatter)
    requires ParseMarkdown(f.file.content, decode).None?
    ensures Collected(xs + [f] + ys, decode) == Collected(xs + ys, decode)
  {
    assert DeriveEntry(f.file, f.defaultType, decode).None?;
    assert [f][..0] == [];
    assert Collected([f], decode) == [];
    CollectedAppend(xs + [f], ys, decode);
    CollectedAppend(xs, [f], decode);
    CollectedAppend(xs, ys, decode);
  }

  predicate DistinctIds(pairs: seq<(string, Entry)>) {
    forall k, l :: 0 <= k < l < |pairs| ==> pairs[k].0 != pairs[l].0
  }

  /** The entries a batch add of `pairs` creates. */
  function Batch(pairs: seq<(string, Entry)>): map<string, Entry>
  {
    if pairs == [] then map[]
    else
      var last := pairs[|pairs| - 1];
      Batch(pairs[..|pairs| - 1])[last.0 := last.1]
  }

  /** An id that no pair carries is not a key of the batch. */
  lemma {:induction false} BatchOnlyGivenIds(pairs: seq<(string, Entry)>, id: string)
    requires forall k :: 0 <= k < |pairs| ==> pairs[k].0 != id
    ensures id !in Batch(pairs)
  {
    if pairs != [] {
      var init := pairs[..|pairs| - 1];
      forall k | 0 <= k < |init| ensures init[k].0 != id {
        assert init[k] == pairs[k];
      }
      BatchOnlyGivenIds(init, id);
    }
  }

  /** Dropping the last pair keeps the ids distinct, and the last id is not among the others. */
  lemma DistinctInit(pairs: seq<(string, Entry)>)
    requires pairs != [] && DistinctIds(pairs)
    ensures DistinctIds(pairs[..|pairs| - 1])
    ensures pairs[|pairs| - 1].0 !in Batch(pairs[..|pairs| - 1])
  {
    var n := |pairs| - 1;
    var init := pairs[..n];
    forall k, l | 0 <= k < l < |init| ensures init[k].0 != init[l].0 {
      assert init[k] == pairs[k] && init[l] == pairs[l];
    }
    forall k | 0 <= k < |init| ensures init[k].0 != pairs[n].0 {
      assert init[k] == pairs[k];
    }
    BatchOnlyGivenIds(init, pairs[n].0);
  }

  /** With distinct ids every pair lands in the batch under its own id, so nothing is lost. */
  lemma {:induction false} BatchHoldsEveryPair(pairs: seq<(string, Entry)>)
    requires DistinctIds(pairs)
    ensures |Batch(pairs)| == |pairs|
    ensures forall k :: 0 <= k < |pairs| ==> pairs[k].0 in Batch(pairs) && Batch(pairs)[pairs[k].0] == pairs[k].1
  {
    if pairs != [] {
      var n := |pairs| - 1;
      var init := pairs[..n];
      var last := pairs[n];
      DistinctInit(pairs);
      BatchHoldsEveryPair(init);
      var m := Batch(init);
      assert Batch(pairs) == m[last.0 := last.1];
      forall k | 0 <= k < |pairs|
        ensures pairs[k].0 in Batch(pairs) && Batch(pairs)[pairs[k].0] == pairs[k].1
      {
        if k < n {
          assert init[k] == pairs[k];
          assert pairs[k].0 != last.0;
        }
      }
    }
  }

  /** The entries indexing `files` one by one into `entries` produces. */
  function IndexAll(entries: map<string, Entry>, files: seq<Listed>, decode: string -> Frontmatter): map<string, Entry>
  {
    if files == [] then entries
    else
      var last := files[|files| - 1];
      IndexedInto(IndexAll(entries, files[..|files| - 1], decode), last.file, last.defaultType, decode)
  }

  /** A rebuild derives exactly the entries single-file indexing of the same files into an empty collection derives. */
  lemma {:induction false} RebuildMatchesIndexing(files: seq<Listed>, decode: string -> Frontmatter)
    ensures Batch(Collected(files, decode)) == IndexAll(map[], files, decode)
  {
    if files != [] {
      var n := |files| - 1;
      var init, last := files[..n], files[n];
      RebuildMatchesIndexing(init, decode);
      var pre := Collected(init, decode);
      var d := DeriveEntry(last.file, last.defaultType, decode);
      assert IndexAll(map[], files, decode)
             == IndexedInto(IndexAll(map[], init, decode), last.file, last.defaultType, decode);
      if d.None? {
        assert Collected(files, decode) == pre;
      } else {
        var all := pre + [d.value];
        assert Collected(files, decode) == all;
        assert all[..|all| - 1] == pre;
        assert Batch(all) == Batch(pre)[d.value.0 := d.value.1];
      }
    }
  }

  /**
   * The vector collection (ChromaDB's `thehook_sessions`): whether it exists,
   * and the document and metadata stored under each id.
   */
  class Collection {
    var present: bool
    var entries: map<string, Entry>

    ghost predicate Valid()
      reads this
    {
      !present ==> entries == map[]
    }

    /** A store in which the collection was never created. */
    constructor ()
      ensures Valid() && !present
    {
      present := false;
      entries := map[];
    }

    /** `get_or_create_collection` */
    method GetOrCreate()
      requires Valid()
      modifies this
      ensures Valid() && present && entries == old(entries)
    {
      present := true;
    }

    /** `delete_collection`, with "does not exist" ignored. */
    method Delete()
      modifies this
      ensures Valid() && !present
    {
      present := false;
      entries := map[];
    }

    /** `upsert`: insert or replace the one id. */
    method Upsert(id: string, document: string, metadata: map<string, string>)
      requires Valid() && present
      modifies this
      ensures Valid() && present
      ensures entries == old(entries)[id := Entry(document, metadata)]
    {
      entries := entries[id := Entry(document, metadata)];
    }

    /** `add`: insert a batch of new, distinct ids. */
    method Add(ids: seq<string>, documents: seq<string>, metadatas: seq<map<string, string>>)
      requires Valid() && present
      requires |ids| == |documents| == |metadatas|
      requires DistinctIds(Zip(ids, documents, metadatas))
      requires forall id :: id in ids ==> id !in entries
      modifies this
      ensures Valid() && present
      ensures entries == old(entries) + Batch(Zip(ids, documents, metadatas))
    {
      entries := entries + Batch(Zip(ids, documents, metadatas));
    }
  }

  function Zip(ids: seq<string>, documents: seq<string>, metadatas: seq<map<string, string>>): (r: seq<(string, Entry)>)
    requires |ids| == |documents| == |metadatas|
    ensures |r| == |ids|
    ensures forall k :: 0 <= k < |r| ==> r[k] == (ids[k], Entry(documents[k], metadatas[k]))
  {
    seq(|ids|, k requires 0 <= k < |ids| => (ids[k], Entry(documents[k], metadatas[k])))
  }

  /**
   * `index_markdown_file`: upsert the entry derived from one file; a file
   * that does not parse returns before the collection is even opened.
   */
  method IndexMarkdownFile(c: Collection, file: MarkdownFile, defaultType: string, decode: string -> Frontmatter)
    requires c.Valid()
    modifies c
    ensures c.Valid()
    ensures c.entries == IndexedInto(old(c.entries), file, defaultType, decode)
    ensures c.present == (old(c.present) || ParseMarkdown(file.content, decode).Some?)
  {
    var parsed := ParseMarkdown(file.content, decode);
    if parsed.None? {
      return;
    }
    var fm, body := parsed.value.frontmatter, parsed.value.body;
    var metadata := BuildMetadata(fm, defaultType);
    var docId := DocId(fm, file.stem, defaultType);
    c.GetOrCreate();
    c.Upsert(docId, body, metadata);
  }

  /** `index_session_file`: index one file as a session record. */
  method IndexSessionFile(c: Collection, file: MarkdownFile, decode: string -> Frontmatter)
    requires c.Valid()
    modifies c
    ensures c.Valid()
    ensures c.entries == IndexedInto(old(c.entries), file, "session", decode)
    ensures c.present == (old(c.present) || ParseMarkdown(file.content, decode).Some?)
  {
    IndexMarkdownFile(c, file, "session", decode);
  }

  /** `get_index_count`: the number of entries, 0 when there is no collection. */
  function IndexCount(c: Collection): (n: nat)
    reads c
    ensures c.present ==> n == |c.entries|
    ensures !c.present ==> n == 0
  {
    if c.present then |c.entries| else 0
  }

  /** One more file extends the gathered pairs by that file's pair, if it has one. */
  lemma CollectedStep(files: seq<Listed>, i: nat, decode: string -> Frontmatter)
    requires i < |files|
    ensures Collected(files[..i + 1], decode)
            == Collected(files[..i], decode)
               + match DeriveEntry(files[i].file, files[i].defaultType, decode)
                 case None => []
                 case Some(p) => [p]
  {
    assert files[..i + 1][..i] == files[..i];
  }

  lemma ZipStep(ids: seq<string>, documents: seq<string>, metadatas: seq<map<string, string>>,
                id: string, document: string, metadata: map<string, string>)
    requires |ids| == |documents| == |metadatas|
    ensures Zip(ids + [id], documents + [document], metadatas + [metadata])
            == Zip(ids, documents, metadatas) + [(id, Entry(document, metadata))]
  {
  }

  /**
   * The gathering loop of `reindex`: walk the listed files in order and
   * collect the id, document and metadata of every parseable one.
   */
  method GatherEntries(allFiles: seq<Listed>, decode: string -> Frontmatter)
    returns (ids: seq<string>, documents: seq<string>, metadatas: seq<map<string, string>>)
    ensures |ids| == |documents| == |metadatas|
    ensures Zip(ids, documents, metadatas) == Collected(allFiles, decode)
  {
    documents, metadatas, ids := [], [], [];
    var i := 0;
    while i < |allFiles|
      invariant 0 <= i <= |allFiles|
      invariant |ids| == |documents| == |metadatas|
      invariant Zip(ids, documents, metadatas) == Collected(allFiles[..i], decode)
    {
      var listed := allFiles[i];
      CollectedStep(allFiles, i, decode);
      var derived := DeriveEntry(listed.file, listed.defaultType, decode);
      if derived.Some? {
        var docId, entry := derived.value.0, derived.value.1;
        ZipStep(ids, documents, metadatas, docId, entry.document, entry.metadata);
        documents := documents + [entry.document];
        metadatas := metadatas + [entry.metadata];
        ids := ids + [docId];
      }
      i := i + 1;
    }
    assert allFiles[..i] == allFiles;
  }

  /**
   * `reindex`: drop and recreate the collection, then batch-add the entry of
   * every parseable file of `sessions` (then `knowledge`); returns how many
   * were added. A missing directory is passed as an empty listing.
   */
  method Reindex(c: Collection, sessions: seq<MarkdownFile>, knowledge: seq<MarkdownFile>,
                 decode: string -> Frontmatter) returns (count: nat)
    requires c.Valid()
    requires DistinctIds(Collected(AllFiles(sessions, knowledge), decode))
    modifies c
    ensures c.Valid() && c.present
    ensures c.entries == Batch(Collected(AllFiles(sessions, knowledge), decode))
    ensures count == |Collected(AllFiles(sessions, knowledge), decode)| == IndexCount(c)
  {
    c.Delete();
    c.GetOrCreate();
    var allFiles := AllFiles(sessions, knowledge);
    if allFiles == [] {
      return 0;
    }
    var ids, documents, metadatas := GatherEntries(allFiles, decode);
    var pairs := Zip(ids, documents, metadatas);
    BatchHoldsEveryPair(pairs);
    if documents != [] {
      forall id | id in ids
        ensures id !in c.entries
      {
      }
      c.Add(ids, documents, metadatas);
      assert c.entries == Batch(pairs);
    } else {
      assert pairs == [];
    }
    count := |documents|;
  }
}
