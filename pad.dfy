/** The query matcher of the pad engine plugin (plugins/pad/index.js):
    `compareScape`, `isMatchPredicate` and the `isMatch` loop that folds a
    chain of predicates linked by `and`/`or`.  Text is compared after the
    plugin's own `escape` (the accent table `Words.PadTable`). */
module Pad {
  import opened Wrappers
  import Words
  import Engine

  /** One comparison of a query: `key operator value`. */
  datatype Predicate = Predicate(key: string, operator: string, value: string)

  /** `query.where`: a predicate and the next link, followed through `and`
      when present and through `or` otherwise. */
  datatype Where = Where(pred: Predicate, and: Option<Where>, or: Option<Where>)

  function Esc(s: string): string {
    Words.Escaped(Words.PadTable, s)
  }

  /** `compareScape`: both sides escaped; an empty escaped text matches
      nothing; `!=` and `contains` as named; every other operator is equality. */
  function CompareScape(pred: Predicate, text: string): (r: bool)
    ensures Esc(text) == [] ==> !r
    ensures Esc(text) != [] && pred.operator == "!=" ==> (r <==> Esc(pred.value) != Esc(text))
    ensures Esc(text) != [] && pred.operator == "contains" ==> (r <==> Words.Contains(Esc(text), Esc(pred.value)))
    ensures Esc(text) != [] && pred.operator != "!=" && pred.operator != "contains" ==>
      (r <==> Esc(pred.value) == Esc(text))
  {
    var ps := Esc(pred.value);
    var pv := Esc(text);
    if pv == [] then false
    else if pred.operator == "!=" then ps != pv
    else if pred.operator == "contains" then Words.Contains(pv, ps)
    else ps == pv
  }

  /** On a non-empty text, `=` and `!=` disagree, and `=` implies `contains`. */
  lemma OperatorsAgree(key: string, value: string, text: string)
    requires Esc(text) != []
    ensures CompareScape(Predicate(key, "=", value), text) != CompareScape(Predicate(key, "!=", value), text)
    ensures CompareScape(Predicate(key, "=", value), text) ==> CompareScape(Predicate(key, "contains", value), text)
  {
  }

  /** A key naming the uid. */
  predicate IsUidKey(key: string) {
    Words.Contains(key, "uid") || Words.Contains(key, "id")
  }

  /** A key naming a content text field. */
  predicate IsFieldKey(key: string) {
    Words.Contains(key, "area") || Words.Contains(key, "axis")
    || Words.Contains(key, "block") || Words.Contains(key, "title")
  }

  /** `isMatchPredicate`: the lower-cased key picks what is compared (the
      uid, a content field of the same name, or any of the tags); a failed
      read counts as no match; an unknown key gives `undefined` (`None`). */
  function IsMatchPredicate(pred: Predicate, meta: Engine.Meta): (r: Option<bool>)
    ensures var key := Words.LowerStr(pred.key);
      r.None? <==> !IsUidKey(key) && !IsFieldKey(key) && key != "tag"
    ensures var key := Words.LowerStr(pred.key);
      IsUidKey(key) ==> r == Some(CompareScape(pred, meta.uid))
    ensures var key := Words.LowerStr(pred.key);
      !IsUidKey(key) && IsFieldKey(key) ==>
        r == Some(meta.content.Some? && key in meta.content.value.fields
                  && CompareScape(pred, meta.content.value.fields[key]))
    ensures var key := Words.LowerStr(pred.key);
      !IsUidKey(key) && !IsFieldKey(key) && key == "tag" ==>
        (r == Some(true) <==> exists t :: t in Engine.GetTags(Some(meta)) && CompareScape(pred, t))
  {
    var key := Words.LowerStr(pred.key);
    if IsUidKey(key) then Some(CompareScape(pred, meta.uid))
    else if IsFieldKey(key) then
      if meta.content.None? || key !in meta.content.value.fields then Some(false)
      else Some(CompareScape(pred, meta.content.value.fields[key]))
    else if key == "tag" then
      if meta.content.None? || meta.content.value.tags.None? then Some(false)
      else
        var tags := Words.SplitTags(meta.content.value.tags.value);
        Some(exists t :: t in tags && CompareScape(pred, t))
    else None
  }

  // ------------------------------------------------------------------ isMatch

  /** One step of the fold: the first defined value is taken as is; later
      values combine with JavaScript's `&&` (after an `and` link) or `||`,
      which return the left operand when it decides and the right one otherwise. */
  function Step(res: Option<bool>, afterAnd: bool, curr: Option<bool>): Option<bool> {
    if res.None? then curr
    else if afterAnd then (if res.value then curr else res)
    else (if res.value then res else curr)
  }

  /** The fold over the rest of a chain, from the result so far. */
  function Fold(w: Where, res: Option<bool>, afterAnd: bool, meta: Engine.Meta): Option<bool>
    decreases w
  {
    var r := Step(res, afterAnd, IsMatchPredicate(w.pred, meta));
    if w.and.Some? then Fold(w.and.value, r, true, meta)
    else if w.or.Some? then Fold(w.or.value, r, false, meta)
    else r
  }

  /** What `isMatch` returns for a query: `undefined` without a `where`. */
  function Matches(meta: Engine.Meta, where: Option<Where>): Option<bool> {
    if where.None? then None else Fold(where.value, None, false, meta)
  }

  /** `isMatch`: walk the chain, combining each predicate's result with the
      result so far through the link that led to it. */
  method IsMatch(meta: Engine.Meta, query: Option<Where>) returns (res: Option<bool>)
    ensures res == Matches(meta, query)
  {
    var where := query;
    res := None;
    var afterAnd := false;
    while where.Some?
      invariant Matches(meta, query) == (if where.None? then res else Fold(where.value, res, afterAnd, meta))
      decreases where
    {
      var w := where.value;
      var curr := IsMatchPredicate(w.pred, meta);
      if res.None? {
        res := curr;
      } else if afterAnd {
        res := if res.value then curr else res;
      } else {
        res := if res.value then res else curr;
      }
      afterAnd := w.and.Some?;
      if w.and.Some? {
        where := w.and;
      } else if w.or.Some? {
        where := w.or;
      } else {
        where := None;
      }
    }
  }

  // ----------------------------------------------------- properties of the fold

  /** Every link of the chain is an `and`. */
  predicate AllAnd(w: Where)
    decreases w
  {
    if w.and.Some? then AllAnd(w.and.value) else w.or.None?
  }

  /** Every link of the chain is an `or`. */
  predicate AllOr(w: Where)
    decreases w
  {
    w.and.None? && (w.or.Some? ==> AllOr(w.or.value))
  }

  /** Every predicate of the chain, in visiting order, has a recognised key. */
  predicate EveryKnown(w: Where, meta: Engine.Meta)
    decreases w
  {
    && IsMatchPredicate(w.pred, meta).Some?
    && (if w.and.Some? then EveryKnown(w.and.value, meta) else w.or.Some? ==> EveryKnown(w.or.value, meta))
  }

  /** Every predicate of the chain holds. */
  predicate EveryHolds(w: Where, meta: Engine.Meta)
    decreases w
  {
    && IsMatchPredicate(w.pred, meta) == Some(true)
    && (if w.and.Some? then EveryHolds(w.and.value, meta) else w.or.Some? ==> EveryHolds(w.or.value, meta))
  }

  /** Some predicate of the chain holds. */
  predicate SomeHolds(w: Where, meta: Engine.Meta)
    decreases w
  {
    || IsMatchPredicate(w.pred, meta) == Some(true)
    || (if w.and.Some? then SomeHolds(w.and.value, meta) else w.or.Some? && SomeHolds(w.or.value, meta))
  }

  lemma {:induction false} FoldAnd(w: Where, b: bool, meta: Engine.Meta)
    requires AllAnd(w) && EveryKnown(w, meta)
    ensures Fold(w, Some(b), true, meta) == Some(b && EveryHolds(w, meta))
    decreases w
  {
    var c := IsMatchPredicate(w.pred, meta);
    if w.and.Some? {
      FoldAnd(w.and.value, b && c.value, meta);
    }
  }

  lemma {:induction false} FoldOr(w: Where, b: bool, meta: Engine.Meta)
    requires AllOr(w) && EveryKnown(w, meta)
    ensures Fold(w, Some(b), false, meta) == Some(b || SomeHolds(w, meta))
    decreases w
  {
    var c := IsMatchPredicate(w.pred, meta);
    if w.or.Some? {
      FoldOr(w.or.value, b || c.value, meta);
    }
  }

  /** A chain of `and` links with recognised keys matches exactly when every predicate does. */
  lemma AndChainIsConjunction(w: Where, meta: Engine.Meta)
    requires AllAnd(w) && EveryKnown(w, meta)
    ensures Matches(meta, Some(w)) == Some(EveryHolds(w, meta))
  {
    var c := IsMatchPredicate(w.pred, meta);
    if w.and.Some? {
      FoldAnd(w.and.value, c.value, meta);
    }
  }

  /** A chain of `or` links with recognised keys matches exactly when some predicate does. */
  lemma OrChainIsDisjunction(w: Where, meta: Engine.Meta)
    requires AllOr(w) && EveryKnown(w, meta)
    ensures Matches(meta, Some(w)) == Some(SomeHolds(w, meta))
  {
    var c := IsMatchPredicate(w.pred, meta);
    if w.or.Some? {
      FoldOr(w.or.value, c.value, meta);
    }
  }

  /** An unknown key leaves the result `undefined`, and the next known
      predicate then decides alone, whatever link came before it. */
  lemma UnknownKeyRestarts(w: Where, res: Option<bool>, afterAnd: bool, meta: Engine.Meta)
    requires IsMatchPredicate(w.pred, meta).None?
    requires res.None? || (afterAnd && res.value) || (!afterAnd && !res.value)
    ensures Step(res, afterAnd, IsMatchPredicate(w.pred, meta)).None?
  {
  }
}
