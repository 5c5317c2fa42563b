/**
  * Splitting an offer title: the backward scan that takes a size and a colour out of the words, and the longest-prefix
  * lookup of colours. Case folding and removal of diacritics are parameters.
  */
module TitleScan {
  import opened Options

  /** A normalised colour name or alias, and the name it stands for. */
  datatype Colour = Colour(prefix: string, name: string)

  predicate Matches(c: Colour, word: string) {
    c.prefix != "" && c.prefix <= word
  }

  /** The longest prefix of `word` in the table; of several equally long ones, the first. */
  function Longest(table: seq<Colour>, word: string): (r: Option<nat>)
    ensures match r
            case None => forall k :: 0 <= k < |table| && table[k].prefix != "" ==> !(table[k].prefix <= word)
            case Some(i) =>
              && i < |table| && table[i].prefix != "" && table[i].prefix <= word
              && (forall k :: 0 <= k < |table| && table[k].prefix <= word ==> |table[k].prefix| <= |table[i].prefix|)
              && (forall k :: 0 <= k < i && table[k].prefix <= word ==> |table[k].prefix| < |table[i].prefix|)
  {
    if table == [] then None else
    var init, last := table[..|table| - 1], table[|table| - 1];
    var best := Longest(init, word);
    assert forall k :: 0 <= k < |init| ==> init[k] == table[k];
    if Matches(last, word) && (best.None? || |last.prefix| > |init[best.value].prefix|) then Some(|table| - 1) else best
  }

  lemma LongestNext(table: seq<Colour>, k: nat, word: string)
    requires k < |table|
    ensures var best := Longest(table[..k], word);
            Longest(table[..k + 1], word) ==
            if Matches(table[k], word) && (best.None? || |table[k].prefix| > |table[best.value].prefix|) then Some(k) else best
  {
    assert table[..k + 1][..k] == table[..k];
  }

  /** The inner loop of the scan. */
  method LongestPrefix(table: seq<Colour>, word: string) returns (name: string, length: nat)
    ensures match Longest(table, word)
            case None => name == "" && length == 0
            case Some(i) => name == table[i].name && length == |table[i].prefix| > 0
  {
    name, length := "", 0;
    for k := 0 to |table|
      invariant match Longest(table[..k], word)
                case None => name == "" && length == 0
                case Some(i) => name == table[i].name && length == |table[i].prefix| > 0
    {
      LongestNext(table, k, word);
      if table[k].prefix <= word && |table[k].prefix| > length {
        name, length := table[k].name, |table[k].prefix|;
      }
    }
    assert table[..|table|] == table;
  }

  // ---------------------------------------------------------------- normalising a colour

  /** The table's entry for a colour is its longest known prefix; an unknown colour stands for itself. */
  function CanonicalColour(aliases: seq<Colour>, normal: string, lower: string): string {
    match Longest(aliases, normal)
    case None => lower
    case Some(i) => aliases[i].name
  }

  /** A word that is itself in the table is its own longest prefix. */
  lemma ExactIsLongest(table: seq<Colour>, word: string, i: nat)
    requires i < |table| && table[i].prefix == word && word != ""
    requires forall k :: 0 <= k < i ==> table[k].prefix != word
    ensures Longest(table, word) == Some(i)
  {
    assert Matches(table[i], word);
    var best := Longest(table, word).value;
    assert table[best].prefix == word[..|table[best].prefix|];
  }

  /** The exact pass; the length of the table if nothing is equal. */
  method FindExact(aliases: seq<Colour>, normal: string) returns (at: nat)
    ensures at <= |aliases| && forall j :: 0 <= j < at ==> aliases[j].prefix != normal
    ensures at < |aliases| ==> aliases[at].prefix == normal
  {
    at := 0;
    while at < |aliases|
      invariant at <= |aliases| && forall j :: 0 <= j < at ==> aliases[j].prefix != normal
    {
      if normal == aliases[at].prefix {
        return;
      }
      at := at + 1;
    }
  }

  /**
    * `normalize_color`, before capitalising: an exact pass, then a longest-prefix pass. The exact pass is only a short
    * cut: the result is the longest-prefix answer in every case.
    */
  method NormalizeColour(aliases: seq<Colour>, colour: string, normal: string, lower: string) returns (r: string)
    requires forall k :: 0 <= k < |aliases| ==> aliases[k].prefix != ""
    ensures colour == "" ==> r == ""
    ensures colour != "" ==>
              match Longest(aliases, normal)
              case None => r == lower
              case Some(i) => r == aliases[i].name
  {
    if colour == "" {
      return "";
    }
    var exact := FindExact(aliases, normal);
    if exact < |aliases| {
      ExactIsLongest(aliases, normal, exact);
      return aliases[exact].name;
    }
    var length := 0;
    r := lower;
    for k := 0 to |aliases|
      invariant r == CanonicalColour(aliases[..k], normal, lower)
      invariant length == (match Longest(aliases[..k], normal) case None => 0 case Some(i) => |aliases[i].prefix|)
    {
      LongestNext(aliases, k, normal);
      if aliases[k].prefix <= normal && |aliases[k].prefix| > length {
        length, r := |aliases[k].prefix|, aliases[k].name;
      }
    }
    assert aliases[..|aliases|] == aliases;
  }

  // ---------------------------------------------------------------- the backward scan

  /** The words from `i` on, without those at the dropped positions. */
  function Keep(words: seq<string>, i: nat, drop: set<nat>): seq<string>
    decreases |words| - i
  {
    if i >= |words| then [] else (if i in drop then [] else [words[i]]) + Keep(words, i + 1, drop)
  }

  lemma {:induction false} KeepBelow(words: seq<string>, i: nat, drop: set<nat>, more: nat)
    requires more < i
    ensures Keep(words, i, drop + {more}) == Keep(words, i, drop)
    decreases |words| - i
  {
    if i < |words| {
      KeepBelow(words, i + 1, drop, more);
    }
  }

  lemma {:induction false} KeepLength(words: seq<string>, i: nat, drop: set<nat>)
    requires i <= |words| && forall d :: d in drop ==> i <= d < |words|
    ensures |Keep(words, i, drop)| == |words| - i - |drop|
    decreases |words| - i
  {
    if i == |words| {
      assert drop == {};
    } else if i in drop {
      KeepLength(words, i + 1, drop - {i});
      KeepBelow(words, i + 1, drop - {i}, i);
      assert drop - {i} + {i} == drop;
    } else {
      KeepLength(words, i + 1, drop);
    }
  }

  /** The lookups of the scan; the size lookup gives "" for a word that is no size. */
  datatype Lookup = Lookup(sizeOf: string -> string, colours: seq<Colour>, normal: string -> string, canonical: string -> string)
  {
    /** The colour found in a word: the canonical name of its longest known prefix, "" if it has none. */
    function ColourIn(word: string): string {
      match Longest(colours, normal(word))
      case None => ""
      case Some(i) => canonical(colours[i].name)
    }

    /** No colour of the table goes without a name. */
    ghost predicate Named() {
      forall k :: 0 <= k < |colours| ==> colours[k].name != "" && canonical(colours[k].name) != ""
    }
  }

  /**
    * The colour of a word: the canonical name of the table's longest colour that begins the normalised word, the first
    * of several equally long ones; none exactly when no colour of the table begins it.
    */
  lemma ColourIs(l: Lookup, word: string, i: nat)
    requires l.Named() && i < |l.colours| && l.colours[i].prefix != "" && l.colours[i].prefix <= l.normal(word)
    requires forall k :: 0 <= k < |l.colours| && l.colours[k].prefix <= l.normal(word) ==>
               |l.colours[k].prefix| < |l.colours[i].prefix| || (k >= i && |l.colours[k].prefix| == |l.colours[i].prefix|)
    ensures l.ColourIn(word) == l.canonical(l.colours[i].name) != ""
  {
  }

  lemma NoColourIff(l: Lookup, word: string)
    requires l.Named()
    ensures l.ColourIn(word) == ""
            <==> forall k :: 0 <= k < |l.colours| && l.colours[k].prefix != "" ==> !(l.colours[k].prefix <= l.normal(word))
  {
  }

  predicate SizeAt(l: Lookup, words: seq<string>, k: int) {
    0 <= k < |words| && l.sizeOf(words[k]) != ""
  }

  predicate ColourAt(l: Lookup, words: seq<string>, k: int) {
    0 <= k < |words| && l.ColourIn(words[k]) != ""
  }

  function Dropped(size: Option<nat>, colour: Option<nat>): set<nat> {
    (if size.Some? then {size.value} else {}) + (if colour.Some? then {colour.value} else {})
  }

  /**
    * Among the words from `from` on, `size` is the rightmost size, and `colour` the rightmost other word that starts
    * with a known colour.
    */
  ghost predicate Scanned(l: Lookup, words: seq<string>, from: nat, size: Option<nat>, colour: Option<nat>) {
    && (size.Some? ==> from <= size.value && SizeAt(l, words, size.value))
    && (forall k :: from <= k < |words| && (size.Some? ==> size.value < k) ==> !SizeAt(l, words, k))
    && (colour.Some? ==> from <= colour.value && colour != size && ColourAt(l, words, colour.value))
    && (forall k: nat :: from <= k < |words| && (colour.Some? ==> colour.value < k) && Some(k) != size ==> !ColourAt(l, words, k))
  }

  method FindColour(l: Lookup, word: string) returns (colour: string)
    requires l.Named()
    ensures colour == l.ColourIn(word)
  {
    var name, _ := LongestPrefix(l.colours, l.normal(word));
    if name == "" {
      return "";
    }
    colour := l.canonical(name);
  }

  /**
    * The scan of `parse_offer_title`, from the last word to the first. The word popped is always the word looked at:
    * the words left are the cleaned words in their order, without the size and the colour found.
    */
  method ScanTitle(words: seq<string>, l: Lookup)
    returns (size: string, colour: string, remaining: seq<string>, ghost sizeAt: Option<nat>, ghost colourAt: Option<nat>)
    requires l.Named()
    ensures Scanned(l, words, 0, sizeAt, colourAt)
    ensures size == if sizeAt.Some? then l.sizeOf(words[sizeAt.value]) else ""
    ensures colour == if colourAt.Some? then l.ColourIn(words[colourAt.value]) else ""
    ensures remaining == Keep(words, 0, Dropped(sizeAt, colourAt))
    ensures |remaining| == |words| - (if size != "" then 1 else 0) - (if colour != "" then 1 else 0)
  {
    size, colour, remaining, sizeAt, colourAt := "", "", words, None, None;
    var index := |words|;
    while index > 0
      invariant 0 <= index <= |words|
      invariant InScan(l, words, index, size, colour, remaining, sizeAt, colourAt)
    {
      index := index - 1;
      var word := words[index];
      InScanNext(l, words, index, size, colour, remaining, sizeAt, colourAt);
      if size == "" && l.sizeOf(word) != "" {
        size, remaining := l.sizeOf(word), remaining[..index] + remaining[index + 1..];
        sizeAt := Some(index);
      } else if colour == "" {
        var found := FindColour(l, word);
        if found != "" {
          colour, remaining := found, remaining[..index] + remaining[index + 1..];
          colourAt := Some(index);
        }
      }
    }
    KeepLength(words, 0, Dropped(sizeAt, colourAt));
  }

  /** Where the loop stands once it has looked at the words from `from` on. */
  ghost predicate InScan(l: Lookup, words: seq<string>, from: nat, size: string, colour: string, remaining: seq<string>,
                         sizeAt: Option<nat>, colourAt: Option<nat>) {
    && from <= |words|
    && Scanned(l, words, from, sizeAt, colourAt)
    && size == (if sizeAt.Some? then l.sizeOf(words[sizeAt.value]) else "")
    && colour == (if colourAt.Some? then l.ColourIn(words[colourAt.value]) else "")
    && remaining == words[..from] + Keep(words, from, Dropped(sizeAt, colourAt))
  }

  /** A word taken out at `index` leaves the words right of it as they were. */
  lemma TakenOut(words: seq<string>, index: nat, remaining: seq<string>, size: Option<nat>, colour: Option<nat>)
    requires index < |words| && index !in Dropped(size, colour)
    requires remaining == words[..index + 1] + Keep(words, index + 1, Dropped(size, colour))
    ensures index < |remaining| && remaining == words[..index] + Keep(words, index, Dropped(size, colour))
    ensures var popped := remaining[..index] + remaining[index + 1..];
            && (size.None? ==> popped == words[..index] + Keep(words, index, Dropped(Some(index), colour)))
            && (colour.None? ==> popped == words[..index] + Keep(words, index, Dropped(size, Some(index))))
  {
    PopIsAligned(words, index, Dropped(size, colour), remaining, remaining[..index] + remaining[index + 1..]);
    if size.None? {
      assert Dropped(Some(index), colour) == Dropped(size, colour) + {index};
    }
    if colour.None? {
      assert Dropped(size, Some(index)) == Dropped(size, colour) + {index};
    }
  }

  /** One word further: it is the size, the colour, or it stays. */
  lemma InScanNext(l: Lookup, words: seq<string>, index: nat, size: string, colour: string, remaining: seq<string>,
                   sizeAt: Option<nat>, colourAt: Option<nat>)
    requires index < |words| && InScan(l, words, index + 1, size, colour, remaining, sizeAt, colourAt)
    ensures index < |remaining|
    ensures var word, popped := words[index], remaining[..index] + remaining[index + 1..];
            if size == "" && l.sizeOf(word) != "" then
              InScan(l, words, index, l.sizeOf(word), colour, popped, Some(index), colourAt)
            else if colour == "" && l.ColourIn(word) != "" then
              InScan(l, words, index, size, l.ColourIn(word), popped, sizeAt, Some(index))
            else InScan(l, words, index, size, colour, remaining, sizeAt, colourAt)
  {
    TakenOut(words, index, remaining, sizeAt, colourAt);
    ScannedNext(l, words, index, sizeAt, colourAt);
    assert l.sizeOf(words[index]) != "" <==> SizeAt(l, words, index);
    assert l.ColourIn(words[index]) != "" <==> ColourAt(l, words, index);
    assert sizeAt.Some? ==> SizeAt(l, words, sizeAt.value);
    assert colourAt.Some? ==> ColourAt(l, words, colourAt.value);
  }

  lemma ScannedNext(l: Lookup, words: seq<string>, index: nat, size: Option<nat>, colour: Option<nat>)
    requires index < |words| && Scanned(l, words, index + 1, size, colour)
    ensures if size.None? && SizeAt(l, words, index) then Scanned(l, words, index, Some(index), colour)
            else if colour.None? && ColourAt(l, words, index) then Scanned(l, words, index, size, Some(index))
            else Scanned(l, words, index, size, colour)
  {
  }

  /** Popping position `index` of the shrinking list removes exactly word `index` of the title. */
  lemma PopIsAligned(words: seq<string>, index: nat, drop: set<nat>, remaining: seq<string>, popped: seq<string>)
    requires index < |words| && index !in drop
    requires remaining == words[..index + 1] + Keep(words, index + 1, drop)
    requires popped == remaining[..index] + remaining[index + 1..]
    ensures remaining[index] == words[index]
    ensures remaining == words[..index] + Keep(words, index, drop)
    ensures popped == words[..index] + Keep(words, index, drop + {index})
  {
    PopLast(words[..index], words[index], Keep(words, index + 1, drop));
    assert words[..index + 1] == words[..index] + [words[index]];
    KeepHere(words, index, drop);
  }

  lemma KeepHere(words: seq<string>, index: nat, drop: set<nat>)
    requires index < |words| && index !in drop
    ensures Keep(words, index, drop) == [words[index]] + Keep(words, index + 1, drop)
    ensures Keep(words, index, drop + {index}) == Keep(words, index + 1, drop)
  {
    KeepBelow(words, index + 1, drop, index);
    assert [] + Keep(words, index + 1, drop) == Keep(words, index + 1, drop);
  }

  lemma PopLast<T>(before: seq<T>, x: T, rest: seq<T>)
    ensures var all := before + [x] + rest;
            && |all| == |before| + 1 + |rest| && all[|before|] == x
            && all == before + ([x] + rest)
            && all[..|before|] + all[|before| + 1..] == before + rest
  {
    var all := before + [x] + rest;
    assert all[..|before|] == before && all[|before| + 1..] == rest;
  }

  /** A title has one answer: the positions are determined by what they mean. */
  lemma ScanIsUnique(l: Lookup, words: seq<string>, s1: Option<nat>, c1: Option<nat>, s2: Option<nat>, c2: Option<nat>)
    requires Scanned(l, words, 0, s1, c1) && Scanned(l, words, 0, s2, c2)
    ensures s1 == s2 && c1 == c2
  {
    assert s1.Some? ==> SizeAt(l, words, s1.value);
    assert s2.Some? ==> SizeAt(l, words, s2.value);
    assert c1.Some? ==> ColourAt(l, words, c1.value);
    assert c2.Some? ==> ColourAt(l, words, c2.value);
  }
}
