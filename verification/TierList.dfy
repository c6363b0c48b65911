/** The tier list of a capability record as the JSON text it is stored in. The list and its parser are
    written over any way of quoting the tiers, so that the results depend on their names only in that a quoted
    tier is recognised whatever follows it. */
module TierList {
  import opened Escrow
  import opened Optional

  type Quoting = Tier -> string

  function Quoted(tier: Tier): string {
    match tier
    case Lite => "\"lite\""
    case Standard => "\"standard\""
    case Turbo => "\"turbo\""
  }

  const QUOTED: Quoting := tier => Quoted(tier)

  /** `JSON.stringify(tiers)`. */
  function Stringify(tiers: seq<Tier>): string { "[" + Items(QUOTED, tiers) }

  function Items(q: Quoting, tiers: seq<Tier>): string {
    if tiers == [] then "]" else q(tiers[0]) + Tail(q, tiers[1..])
  }

  function Tail(q: Quoting, tiers: seq<Tier>): string {
    if tiers == [] then "]" else "," + q(tiers[0]) + Tail(q, tiers[1..])
  }

  datatype Item = Item(tier: Tier, rest: string) | NoTier

  function FirstTier(q: Quoting, s: string): Item {
    if q(Lite) <= s then Item(Lite, s[|q(Lite)|..])
    else if q(Standard) <= s then Item(Standard, s[|q(Standard)|..])
    else if q(Turbo) <= s then Item(Turbo, s[|q(Turbo)|..])
    else NoTier
  }

  /** The list a text in the form above denotes. */
  function Parse(s: string): Option<seq<Tier>> {
    if s == "[]" then Some([]) else if s != "" && s[0] == '[' then ParseItems(QUOTED, s[1..]) else None
  }

  function ParseItems(q: Quoting, s: string): Option<seq<Tier>>
    decreases |s|
  {
    match FirstTier(q, s)
    case NoTier => None
    case Item(tier, rest) =>
      if rest == "]" then Some([tier])
      else if rest != "" && rest[0] == ',' && ParseItems(q, rest[1..]).Some? then
        Some([tier] + ParseItems(q, rest[1..]).value)
      else None
  }

  /** A quoted tier is recognised whatever follows it. */
  ghost predicate Readable(q: Quoting) {
    forall tier, rest :: FirstTier(q, q(tier) + rest) == Item(tier, rest)
  }

  lemma QuotedIsReadable()
    ensures Readable(QUOTED)
  {
    forall tier, rest ensures FirstTier(QUOTED, QUOTED(tier) + rest) == Item(tier, rest) {
      FirstOfQuoted(tier, rest);
    }
  }

  lemma FirstOfQuoted(tier: Tier, rest: string)
    ensures FirstTier(QUOTED, QUOTED(tier) + rest) == Item(tier, rest)
  {
    var s := QUOTED(tier) + rest;
    assert s[1] == Quoted(tier)[1];
    assert s[|QUOTED(tier)|..] == rest;
  }

  lemma {:induction false} ParseOfItems(q: Quoting, tiers: seq<Tier>)
    requires Readable(q) && tiers != []
    ensures ParseItems(q, Items(q, tiers)) == Some(tiers)
    decreases |tiers|
  {
    assert FirstTier(q, q(tiers[0]) + Tail(q, tiers[1..])) == Item(tiers[0], Tail(q, tiers[1..]));
    if |tiers| > 1 {
      ParseOfItems(q, tiers[1..]);
      TailIsItems(q, tiers[1..]);
      assert [tiers[0]] + tiers[1..] == tiers;
    } else {
      assert tiers[1..] == [] && tiers == [tiers[0]];
    }
  }

  lemma TailIsItems(q: Quoting, tiers: seq<Tier>)
    requires tiers != []
    ensures Tail(q, tiers) != "]" && Tail(q, tiers)[0] == ',' && Tail(q, tiers)[1..] == Items(q, tiers)
  {
    assert Tail(q, tiers) == "," + Items(q, tiers);
  }

  /** Reading back a stored tier list, of any length. */
  lemma TiersRoundTrip(tiers: seq<Tier>)
    ensures Parse(Stringify(tiers)) == Some(tiers)
  {
    if tiers != [] {
      QuotedIsReadable();
      ParseOfItems(QUOTED, tiers);
      NotEmptyList(QUOTED(tiers[0]), Tail(QUOTED, tiers[1..]));
    }
  }

  lemma NotEmptyList(first: string, rest: string)
    requires first != "" && first[0] != ']'
    ensures "[" + (first + rest) != "[]" && ("[" + (first + rest))[1..] == first + rest
  {
    assert ("[" + (first + rest))[1] == first[0];
  }
}
