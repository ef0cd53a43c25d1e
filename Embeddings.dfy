/** The corpus side of the embedding index (`build_job_embeddings`): the text each
    posting is embedded from, and the decision to reuse a cached embedding list or to
    compute a fresh one. The sentence-embedding model is the parameter `encode`. */
module Embeddings {
  import opened Jobs
  import opened Wrappers

  /** The columns whose text is embedded, in this order. */
  const Fields: seq<string> := ["title", "company", "description", "category"]

  /** The column is present with non-empty text (Python's `field in job and job[field]`). */
  predicate Present(job: Job, field: string) {
    field in job && job[field] != ""
  }

  /** What one column adds to the text: its value and a space, or nothing. */
  function Piece(job: Job, field: string): string {
    if Present(job, field) then job[field] + " " else ""
  }

  /** The text built from `fields`, left to right. */
  function TextOf(job: Job, fields: seq<string>): string {
    if fields == [] then ""
    else TextOf(job, fields[..|fields| - 1]) + Piece(job, fields[|fields| - 1])
  }

  /** The text a posting is embedded from. */
  function CorpusText(job: Job): string {
    TextOf(job, Fields)
  }

  /** The text-building loop of `build_job_embeddings`. */
  method BuildText(job: Job) returns (text: string)
    ensures text == CorpusText(job)
  {
    text := "";
    for k := 0 to |Fields|
      invariant text == TextOf(job, Fields[..k])
    {
      var field := Fields[k];
      if field in job && job[field] != "" {
        text := text + job[field] + " ";
      }
      assert Fields[..k + 1][..k] == Fields[..k];
    }
    assert Fields[..|Fields|] == Fields;
  }

  lemma TextOfSnoc(job: Job, fields: seq<string>, f: string)
    ensures TextOf(job, fields + [f]) == TextOf(job, fields) + Piece(job, f)
  {
    assert (fields + [f])[..|fields|] == fields;
  }

  lemma TextOfTwo(job: Job, a: string, b: string)
    ensures TextOf(job, [a, b]) == Piece(job, a) + Piece(job, b)
  {
    TextOfSnoc(job, [a], b);
    assert [a, b] == [a] + [b];
    assert [a][..0] == [];
  }

  lemma TextOfThree(job: Job, a: string, b: string, c: string)
    ensures TextOf(job, [a, b, c]) == Piece(job, a) + Piece(job, b) + Piece(job, c)
  {
    TextOfSnoc(job, [a, b], c);
    assert [a, b, c] == [a, b] + [c];
    TextOfTwo(job, a, b);
  }

  /** Over four columns the text is the four pieces in order. */
  lemma TextOfFour(job: Job, a: string, b: string, c: string, d: string)
    ensures TextOf(job, [a, b, c, d]) == Piece(job, a) + Piece(job, b) + Piece(job, c) + Piece(job, d)
  {
    TextOfSnoc(job, [a, b, c], d);
    assert [a, b, c, d] == [a, b, c] + [d];
    TextOfThree(job, a, b, c);
  }

  /** With all four columns filled, the text is the four values in order, each
      followed by one space. */
  lemma CorpusTextAllPresent(job: Job)
    requires Present(job, "title") && Present(job, "company")
    requires Present(job, "description") && Present(job, "category")
    ensures CorpusText(job)
         == job["title"] + " " + job["company"] + " " + job["description"] + " " + job["category"] + " "
  {
    TextOfFour(job, "title", "company", "description", "category");
  }

  /** The text sees a column only through its non-empty value: postings that agree
      on which of the four columns are filled, and on their text, embed the same text,
      whatever else they hold. */
  lemma {:induction false} TextOfAgrees(j1: Job, j2: Job, fields: seq<string>)
    requires forall f :: f in fields ==> (Present(j1, f) <==> Present(j2, f))
    requires forall f :: f in fields && Present(j1, f) && Present(j2, f) ==> j1[f] == j2[f]
    ensures TextOf(j1, fields) == TextOf(j2, fields)
  {
    if fields != [] {
      var init := fields[..|fields| - 1];
      assert forall f :: f in init ==> f in fields;
      TextOfAgrees(j1, j2, init);
      assert fields[|fields| - 1] in fields;
    }
  }

  lemma CorpusTextAgrees(j1: Job, j2: Job)
    requires forall f :: f in Fields ==> (Present(j1, f) <==> Present(j2, f))
    requires forall f :: f in Fields && Present(j1, f) && Present(j2, f) ==> j1[f] == j2[f]
    ensures CorpusText(j1) == CorpusText(j2)
  {
    TextOfAgrees(j1, j2, Fields);
  }

  /** An empty column is skipped exactly like an absent one. */
  lemma EmptyLikeAbsent(job: Job, field: string)
    ensures CorpusText(job[field := ""]) == CorpusText(job - {field})
  {
    CorpusTextAgrees(job[field := ""], job - {field});
  }

  /** The text is empty exactly when none of the four columns is filled. */
  lemma {:induction false} TextOfEmpty(job: Job, fields: seq<string>)
    ensures TextOf(job, fields) == "" <==> forall f :: f in fields ==> !Present(job, f)
  {
    if fields != [] {
      var init := fields[..|fields| - 1];
      var last := fields[|fields| - 1];
      TextOfEmpty(job, init);
      assert forall f :: f in fields ==> f in init || f == last;
      assert forall f :: f in init ==> f in fields;
      assert Present(job, last) ==> |Piece(job, last)| > 0;
    }
  }

  lemma CorpusTextEmpty(job: Job)
    ensures CorpusText(job) == "" <==> forall f :: f in Fields ==> !Present(job, f)
  {
    TextOfEmpty(job, Fields);
  }

  /** A cached list is reused exactly when it has one entry per posting; its contents
      are not checked. */
  predicate CacheFits<E>(cache: Option<seq<E>>, count: nat) {
    cache.Some? && |cache.value| == count
  }

  /** `build_job_embeddings`: one embedding per posting, in corpus order. A fitting
      cache is taken as it is and nothing is written back; otherwise every posting is
      embedded from its text and the new list is what gets written to the cache.
      `cache` is None when there is no cache file or it cannot be read. */
  method BuildEmbeddings<E>(jobs: seq<Job>, cache: Option<seq<E>>, encode: string -> E)
    returns (embeddings: seq<E>, written: Option<seq<E>>)
    ensures |embeddings| == |jobs|
    ensures CacheFits(cache, |jobs|) ==> embeddings == cache.value && written.None?
    ensures !CacheFits(cache, |jobs|) ==> written == Some(embeddings)
    ensures !CacheFits(cache, |jobs|) ==>
      forall i :: 0 <= i < |jobs| ==> embeddings[i] == encode(CorpusText(jobs[i]))
  {
    embeddings := [];
    if cache.Some? && |cache.value| == |jobs| {
      for i := 0 to |jobs|
        invariant embeddings == cache.value[..i]
      {
        embeddings := embeddings + [cache.value[i]];
      }
      return embeddings, None;
    }
    for i := 0 to |jobs|
      invariant |embeddings| == i
      invariant forall k :: 0 <= k < i ==> embeddings[k] == encode(CorpusText(jobs[k]))
    {
      var text := BuildText(jobs[i]);
      embeddings := embeddings + [encode(text)];
    }
    written := Some(embeddings);
  }
}
