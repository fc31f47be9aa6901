/** Packing context items under a token budget, internal/ctxengine/engine.go. */
module Packer {
  import opened Bytes

  datatype Delivery = Inline | Structured | Reference | Truncated | Omitted

  datatype Item = Item(kind: Text, path: Text, body: Text, hash: Text, delivery: Delivery, tokens: nat)

  /** An item left out, for the reason "token budget". */
  datatype OmittedItem = OmittedItem(kind: Text, path: Text, hash: Text, tokens: nat)

  const REMAINDER := 24

  function Request(): Text { Ascii("request") }

  function HashedText(item: Item): Text { item.kind + [0] + item.path + [0] + item.body }

  /** What is hashed of two items is the same only if kind, path and body are, when no kind or path holds a NUL. */
  lemma HashedTextDetermines(x: Item, y: Item)
    requires 0 !in x.kind && 0 !in x.path && 0 !in y.kind && 0 !in y.path
    requires HashedText(x) == HashedText(y)
    ensures x.kind == y.kind && x.path == y.path && x.body == y.body
  {
    assert HashedText(x) == x.kind + [0] + (x.path + [0] + x.body);
    assert HashedText(y) == y.kind + [0] + (y.path + [0] + y.body);
    NulSplits(x.kind, y.kind, x.path + [0] + x.body, y.path + [0] + y.body);
    NulSplits(x.path, y.path, x.body, y.body);
  }

  lemma NulSplits(x: Text, y: Text, a: Text, b: Text)
    requires 0 !in x && 0 !in y && x + [0] + a == y + [0] + b
    ensures x == y && a == b
  {
    var s := x + [0] + a;
    assert s[|x|] == 0 && s[|y|] == (y + [0] + b)[|y|] == 0;
    assert forall i :: 0 <= i < |y| ==> s[i] == y[i];
    assert forall i :: 0 <= i < |x| ==> s[i] == x[i];
    assert x == s[..|x|] && y == s[..|x|];
    assert a == s[|x| + 1..] && b == s[|x| + 1..];
  }

  /** What the packer takes from elsewhere: which bodies are only white space, and the hash. */
  datatype Rules = Rules(isBlank: Text -> bool, hashOf: Text -> Text) {
    function HashOf(item: Item): Text { hashOf(HashedText(item)) }

    predicate Skips(item: Item) { isBlank(item.body) && item.kind != Request() }
  }

  /** A token for every four bytes begun. */
  function EstimateTokens(s: Text): (n: nat)
    ensures 4 * (n - 1) < |s| <= 4 * n || (s == [] && n == 0)
  {
    if s == [] then 0 else (|s| + 3) / 4
  }

  /** The longest start of the text that has no more tokens; asked for none, the text is left as it is. */
  function TruncateToTokens(s: Text, tokens: nat): (r: Text)
    ensures r <= s
    ensures tokens > 0 ==> EstimateTokens(r) <= tokens && forall k :: |r| < k <= |s| ==> EstimateTokens(s[..k]) > tokens
    ensures tokens == 0 ==> r == s
  {
    var n := tokens * 4;
    if n == 0 || |s| <= n then s else s[..n]
  }

  /** The item with its hash, unless it brought one, and its tokens. */
  function Finish(rules: Rules, item: Item): Item {
    item.(hash := if item.hash == [] then rules.HashOf(item) else item.hash, tokens := EstimateTokens(item.body))
  }

  /** What became of a submitted item. */
  datatype Fate = Whole(item: Item) | Cut(item: Item) | Left(omitted: OmittedItem)

  /** `fate` is a possible fate of `item`: packed as it is, packed with less of its body, or omitted. */
  ghost predicate IsFate(rules: Rules, item: Item, fate: Fate) {
    var full := Finish(rules, item);
    match fate
    case Whole(it) => it == full
    case Cut(it) =>
      && item.delivery in {Inline, Structured} && REMAINDER <= it.tokens < full.tokens
      && it.body == full.body[..4 * it.tokens] && it.delivery == Truncated
      && it.kind == full.kind && it.path == full.path && it.hash == rules.HashOf(it)
    case Left(o) => o == OmittedItem(full.kind, full.path, full.hash, full.tokens)
  }

  ghost function Packed(fates: seq<Fate>): seq<Item> {
    if fates == [] then []
    else
      var last := fates[|fates| - 1];
      Packed(fates[..|fates| - 1]) + if last.Left? then [] else [last.item]
  }

  ghost function LeftOut(fates: seq<Fate>): seq<OmittedItem> {
    if fates == [] then []
    else
      var last := fates[|fates| - 1];
      LeftOut(fates[..|fates| - 1]) + if last.Left? then [last.omitted] else []
  }

  ghost function Cuts(fates: seq<Fate>): nat {
    if fates == [] then 0 else Cuts(fates[..|fates| - 1]) + if fates[|fates| - 1].Cut? then 1 else 0
  }

  ghost function Sum(items: seq<Item>): nat {
    if items == [] then 0 else Sum(items[..|items| - 1]) + items[|items| - 1].tokens
  }

  lemma AppendFate(fates: seq<Fate>, f: Fate)
    ensures Packed(fates + [f]) == Packed(fates) + if f.Left? then [] else [f.item]
    ensures LeftOut(fates + [f]) == LeftOut(fates) + if f.Left? then [f.omitted] else []
    ensures Cuts(fates + [f]) == Cuts(fates) + if f.Cut? then 1 else 0
  {
    assert (fates + [f])[..|fates|] == fates;
  }

  lemma AppendSum(items: seq<Item>, it: Item)
    ensures Sum(items + [it]) == Sum(items) + it.tokens
  {
    assert (items + [it])[..|items|] == items;
  }

  /** Cutting a body that has too many tokens leaves exactly as many as asked for. */
  lemma TruncationIsExact(s: Text, tokens: nat)
    requires 0 < tokens < EstimateTokens(s)
    ensures TruncateToTokens(s, tokens) == s[..4 * tokens] && EstimateTokens(TruncateToTokens(s, tokens)) == tokens
  {
  }

  ghost predicate Fated(rules: Rules, submitted: seq<Item>, fates: seq<Fate>) {
    |fates| == |submitted| && forall i :: 0 <= i < |fates| ==> IsFate(rules, submitted[i], fates[i])
  }

  ghost predicate Tallied(budget: int, fates: seq<Fate>, used: nat, items: seq<Item>, omitted: seq<OmittedItem>) {
    && items == Packed(fates) && omitted == LeftOut(fates)
    && used == Sum(items)
    && (budget > 0 ==> used <= budget)
    && (budget <= 0 ==> omitted == [] && Cuts(fates) == 0)
    && Cuts(fates) <= 1 && (Cuts(fates) == 1 ==> used == budget)
  }

  /** The items submitted had these fates, under this budget. */
  ghost predicate Accounted(rules: Rules, budget: int, submitted: seq<Item>, fates: seq<Fate>,
                            used: nat, items: seq<Item>, omitted: seq<OmittedItem>) {
    Fated(rules, submitted, fates) && Tallied(budget, fates, used, items, omitted)
  }

  lemma FatedOneMore(rules: Rules, submitted: seq<Item>, fates: seq<Fate>, source: Item, fate: Fate)
    requires Fated(rules, submitted, fates) && IsFate(rules, source, fate)
    ensures Fated(rules, submitted + [source], fates + [fate])
  {
  }

  lemma PackedOneMore(budget: int, fates: seq<Fate>, used: nat, items: seq<Item>, omitted: seq<OmittedItem>, item: Item, fate: Fate)
    requires Tallied(budget, fates, used, items, omitted) && (fate == Whole(item) || fate == Cut(item))
    requires budget <= 0 || used + item.tokens <= budget
    requires fate.Cut? ==> used + item.tokens == budget && Cuts(fates) == 0 && budget > 0
    requires Cuts(fates) == 1 ==> item.tokens == 0
    ensures Tallied(budget, fates + [fate], used + item.tokens, items + [item], omitted)
  {
    AppendFate(fates, fate);
    AppendSum(items, item);
  }

  class Packer {
    const rules: Rules
    const budget: int
    var used: nat
    var items: seq<Item>
    var omitted: seq<OmittedItem>
    /** The items that were not skipped, in the order they came, and what became of them. */
    ghost var submitted: seq<Item>
    ghost var fates: seq<Fate>

    ghost predicate Valid()
      reads this
    {
      Accounted(rules, budget, submitted, fates, used, items, omitted)
    }

    constructor (rules: Rules, budget: int)
      ensures Valid() && this.rules == rules && this.budget == budget && submitted == []
    {
      this.rules, this.budget := rules, budget;
      used, items, omitted := 0, [], [];
      submitted, fates := [], [];
    }

    /** Would `tokens` more break the budget? */
    predicate TooMany(tokens: nat)
      reads this`used
    {
      budget > 0 && used + tokens > budget
    }

    method Pack(item: Item, ghost source: Item, ghost fate: Fate)
      requires Valid() && IsFate(rules, source, fate) && (fate == Whole(item) || fate == Cut(item))
      requires !TooMany(item.tokens) && (fate.Cut? ==> used + item.tokens == budget && Cuts(fates) == 0 && budget > 0)
      requires Cuts(fates) == 1 ==> item.tokens == 0
      modifies this
      ensures Valid() && submitted == old(submitted) + [source] && fates == old(fates) + [fate]
      ensures used == old(used) + item.tokens && items == old(items) + [item] && omitted == old(omitted)
    {
      FatedOneMore(rules, submitted, fates, source, fate);
      PackedOneMore(budget, fates, used, items, omitted, item, fate);
      used := used + item.tokens;
      items := items + [item];
      submitted, fates := submitted + [source], fates + [fate];
    }

    method Omit(item: Item, ghost source: Item)
      requires Valid() && item == Finish(rules, source) && budget > 0
      modifies this
      ensures Valid() && submitted == old(submitted) + [source]
      ensures fates == old(fates) + [Left(OmittedItem(item.kind, item.path, item.hash, item.tokens))]
      ensures used == old(used) && items == old(items)
      ensures omitted == old(omitted) + [OmittedItem(item.kind, item.path, item.hash, item.tokens)]
    {
      ghost var fate := Left(OmittedItem(item.kind, item.path, item.hash, item.tokens));
      FatedOneMore(rules, submitted, fates, source, fate);
      AppendFate(fates, fate);
      omitted := omitted + [OmittedItem(item.kind, item.path, item.hash, item.tokens)];
      submitted := submitted + [source];
      fates := fates + [fate];
    }

    /** Blank items are skipped; an item that fits is packed; one that does not is cut to the rest of
        the budget if that is worth it, and otherwise left out. */
    method Add(submission: Item)
      requires Valid()
      modifies this
      ensures Valid()
      ensures rules.Skips(submission) ==> submitted == old(submitted) && fates == old(fates) && used == old(used)
      ensures !rules.Skips(submission) ==> submitted == old(submitted) + [submission] && |fates| == |old(fates)| + 1 && old(fates) < fates
      ensures !rules.Skips(submission) ==>
                var tokens := EstimateTokens(submission.body);
                var fate := fates[|fates| - 1];
                && (fate.Whole? <==> !old(TooMany(tokens)))
                && (fate.Cut? <==> old(TooMany(tokens)) && budget - old(used) >= REMAINDER && submission.delivery in {Inline, Structured})
    {
      if rules.isBlank(submission.body) && submission.kind != Request() { return; }
      var item := submission;
      if item.hash == [] { item := item.(hash := rules.HashOf(item)); }
      item := item.(tokens := EstimateTokens(item.body));
      assert item == Finish(rules, submission);
      if TooMany(item.tokens) {
        var remain := budget - used;
        if remain >= REMAINDER && (item.delivery == Inline || item.delivery == Structured) {
          TruncationIsExact(item.body, remain);
          var cut := item.(body := TruncateToTokens(item.body, remain), delivery := Truncated);
          cut := cut.(tokens := EstimateTokens(cut.body));
          cut := cut.(hash := rules.HashOf(cut));
          if used + cut.tokens <= budget {
            Pack(cut, submission, Cut(cut));
            return;
          }
        }
        Omit(item, submission);
        return;
      }
      Pack(item, submission, Whole(item));
    }
  }

  /** The submissions that are not skipped. */
  ghost function Kept(rules: Rules, all: seq<Item>): seq<Item> {
    if all == [] then []
    else
      var last := all[|all| - 1];
      Kept(rules, all[..|all| - 1]) + if rules.Skips(last) then [] else [last]
  }

  /** Any sequence of adds: each item that is not skipped is packed or left out, once and in order,
      within the budget; at most one is cut, and then the budget is used up. */
  method PackAll(rules: Rules, budget: int, all: seq<Item>) returns (items: seq<Item>, omitted: seq<OmittedItem>, used: nat)
    ensures used == Sum(items) && (budget > 0 ==> used <= budget) && (budget <= 0 ==> omitted == [])
    ensures |items| + |omitted| == |Kept(rules, all)|
    ensures exists fates :: Accounted(rules, budget, Kept(rules, all), fates, used, items, omitted)
  {
    var p := new Packer(rules, budget);
    for i := 0 to |all|
      invariant fresh(p) && p.Valid() && p.rules == rules && p.budget == budget
      invariant p.submitted == Kept(rules, all[..i])
    {
      assert all[..i + 1][..i] == all[..i];
      p.Add(all[i]);
    }
    assert all[..|all|] == all;
    NothingIsDropped(p.fates);
    return p.items, p.omitted, p.used;
  }

  /** Nothing is packed twice or dropped: the packed and the omitted items are as many as the fates. */
  lemma {:induction false} NothingIsDropped(fates: seq<Fate>)
    ensures |Packed(fates)| + |LeftOut(fates)| == |fates|
  {
    if fates != [] { NothingIsDropped(fates[..|fates| - 1]); }
  }
}
