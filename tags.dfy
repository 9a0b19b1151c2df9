/** The tag index: the lexer (lib/epm/tags-lexer.js) buckets every tag of
    every package under its escaped form, and `EpmTags.all`
    (lib/epm/tags.js) lists one entry per bucket.  Tags are escaped with
    lib/utils/words.js, whose table is `Words.UtilTable`. */
module Tags {
  import opened Wrappers
  import Words

  function Esc(tag: string): string {
    Words.Escaped(Words.UtilTable, tag)
  }

  /** The forms of a list of tags under `esc`. */
  function Vocabulary(esc: string -> string, tags: seq<string>): set<string>
    decreases |tags|
  {
    if tags == [] then {} else Vocabulary(esc, tags[..|tags| - 1]) + {esc(tags[|tags| - 1])}
  }

  /** The forms under `esc` of the tags of the listed uids. */
  function AllVocabulary(esc: string -> string, ftags: map<string, seq<string>>, uids: seq<string>): set<string>
    decreases |uids|
  {
    if uids == [] then {}
    else
      var u := uids[|uids| - 1];
      AllVocabulary(esc, ftags, uids[..|uids| - 1]) + (if u in ftags then Vocabulary(esc, ftags[u]) else {})
  }

  lemma {:induction false} VocabularyMembers(esc: string -> string, tags: seq<string>, w: string)
    ensures w in Vocabulary(esc, tags) <==> exists t :: t in tags && esc(t) == w
    decreases |tags|
  {
    if tags != [] {
      var init := tags[..|tags| - 1];
      VocabularyMembers(esc, init, w);
      assert tags == init + [tags[|tags| - 1]];
      if exists t :: t in tags && esc(t) == w {
        var t :| t in tags && esc(t) == w;
        assert t in init || t == tags[|tags| - 1];
      }
    }
  }

  lemma {:induction false} AllVocabularyMembers(esc: string -> string, ftags: map<string, seq<string>>, uids: seq<string>, w: string)
    ensures w in AllVocabulary(esc, ftags, uids) <==>
      exists u, t :: u in uids && u in ftags && t in ftags[u] && esc(t) == w
    decreases |uids|
  {
    if uids != [] {
      var init := uids[..|uids| - 1];
      var u := uids[|uids| - 1];
      AllVocabularyMembers(esc, ftags, init, w);
      assert uids == init + [u];
      if u in ftags {
        VocabularyMembers(esc, ftags[u], w);
      }
      if exists v, t :: v in uids && v in ftags && t in ftags[v] && esc(t) == w {
        var v, t :| v in uids && v in ftags && t in ftags[v] && esc(t) == w;
        assert v in init || v == u;
      }
    }
  }

  /** Every key is bucketed under itself, alone. */
  ghost predicate Singletons(scapes: map<string, seq<string>>) {
    forall w :: w in scapes ==> scapes[w] == [w]
  }

  /** `order` lists each key exactly once. */
  ghost predicate KeyOrder(scapes: map<string, seq<string>>, order: seq<string>) {
    && (forall w :: w in order <==> w in scapes)
    && (forall i, j :: 0 <= i < j < |order| ==> order[i] != order[j])
  }

  /** `TagsLexer.all`: for every uid of the tags file (in `Object.keys`
      order) and every tag of it, create the bucket of the escaped tag and
      push the escaped tag unless the bucket holds it already.  `esc` is
      the escaping function (`Esc` in the source); `order` lists the
      buckets' keys. */
  method Lex(esc: string -> string, ftags: map<string, seq<string>>, uids: seq<string>)
    returns (scapes: map<string, seq<string>>, order: seq<string>)
    requires forall u :: u in uids <==> u in ftags
    ensures forall w :: w in scapes <==> exists u, t :: u in ftags && t in ftags[u] && esc(t) == w
    ensures Singletons(scapes)
    ensures KeyOrder(scapes, order)
  {
    scapes := map[];
    order := [];
    for i := 0 to |uids|
      invariant scapes.Keys == AllVocabulary(esc, ftags, uids[..i])
      invariant Singletons(scapes) && KeyOrder(scapes, order)
    {
      assert uids[..i + 1][..i] == uids[..i];
      var tags := ftags[uids[i]];
      for j := 0 to |tags|
        invariant scapes.Keys == AllVocabulary(esc, ftags, uids[..i]) + Vocabulary(esc, tags[..j])
        invariant Singletons(scapes) && KeyOrder(scapes, order)
      {
        assert tags[..j + 1][..j] == tags[..j];
        var we := esc(tags[j]);
        if we !in scapes {
          scapes := scapes[we := []];
          order := order + [we];
        }
        if we !in scapes[we] {
          scapes := scapes[we := scapes[we] + [we]];
        }
      }
      assert tags[..|tags|] == tags;
    }
    assert uids[..|uids|] == uids;
    forall w ensures w in scapes <==> exists u, t :: u in ftags && t in ftags[u] && esc(t) == w {
      AllVocabularyMembers(esc, ftags, uids, w);
    }
  }

  /** `EpmTags.all`: the first element of every bucket, one per key.  The
      callback is always handed `(null, res)`. */
  method All(ftags: map<string, seq<string>>, uids: seq<string>) returns (r: Result<seq<string>, string>)
    requires forall u :: u in uids <==> u in ftags
    ensures r.Ok?
    ensures forall w :: w in r.value <==> exists u, t :: u in ftags && t in ftags[u] && Esc(t) == w
    ensures forall i, j :: 0 <= i < j < |r.value| ==> r.value[i] != r.value[j]
  {
    var scapes, order := Lex(Esc, ftags, uids);
    var res := seq(|order|, i requires 0 <= i < |order| => scapes[order[i]][0]);
    assert res == order;
    return Ok(res);
  }

  /** Tags that differ only in case or in spacing share one bucket. */
  lemma CaseAndSpacingCollapse(a: string, b: string)
    requires Words.Normalize(Words.LowerStr(a)) == Words.Normalize(Words.LowerStr(b))
    ensures Esc(a) == Esc(b)
  {
  }
}
