/** Printers and parsers that must undo each other: filled candidate templates and comma-separated key lists. */
module Text {
  import opened Wrappers

  predicate IsSpace(c: char) {
    || '\t' <= c <= '\r' || '\U{1c}' <= c <= ' ' || c == '\U{85}' || c == '\U{a0}' || c == '\U{1680}'
    || '\U{2000}' <= c <= '\U{200a}' || c == '\U{2028}' || c == '\U{2029}' || c == '\U{202f}' || c == '\U{205f}'
    || c == '\U{3000}'
  }

  function StripLeft(s: string): string {
    if s != [] && IsSpace(s[0]) then StripLeft(s[1..]) else s
  }

  function StripRight(s: string): string {
    if s != [] && IsSpace(s[|s| - 1]) then StripRight(s[..|s| - 1]) else s
  }

  function Strip(s: string): string {
    StripRight(StripLeft(s))
  }

  /** No space at either end. */
  predicate Trimmed(s: string) {
    s == [] || (!IsSpace(s[0]) && !IsSpace(s[|s| - 1]))
  }

  lemma {:induction false} StripRightTrims(s: string)
    requires s == [] || !IsSpace(s[0])
    ensures Trimmed(StripRight(s)) && StripRight(s) <= s
  {
    if s != [] && IsSpace(s[|s| - 1]) {
      StripRightTrims(s[..|s| - 1]);
    }
  }

  lemma {:induction false} StripLeftTrims(s: string)
    ensures StripLeft(s) == [] || !IsSpace(StripLeft(s)[0])
    ensures forall c :: c in StripLeft(s) ==> c in s
  {
    if s != [] && IsSpace(s[0]) {
      StripLeftTrims(s[1..]);
    }
  }

  lemma {:induction false} StripTrims(s: string)
    ensures Trimmed(Strip(s))
    ensures forall c :: c in Strip(s) ==> c in s
  {
    StripLeftTrims(s);
    StripRightTrims(StripLeft(s));
  }

  // ---------------------------------------------------------------- candidate templates

  const PLACEHOLDER := "{variation}"

  predicate PlaceholderAt(t: string, i: nat) {
    i + |PLACEHOLDER| <= |t| && t[i..i + |PLACEHOLDER|] == PLACEHOLDER
  }

  /** The first placeholder from position i on. */
  function Find(t: string, i: nat): (r: Option<nat>)
    ensures r.Some? ==> i <= r.value && PlaceholderAt(t, r.value)
    decreases |t| - i
  {
    if i >= |t| then None else if PlaceholderAt(t, i) then Some(i) else Find(t, i + 1)
  }

  predicate OnePlaceholder(t: string) {
    Find(t, 0).Some? && Find(t, Find(t, 0).value + |PLACEHOLDER|).None?
  }

  function Prefix(t: string): string
    requires OnePlaceholder(t)
  {
    t[..Find(t, 0).value]
  }

  function Suffix(t: string): string
    requires OnePlaceholder(t)
  {
    t[Find(t, 0).value + |PLACEHOLDER|..]
  }

  /** The template with its one placeholder replaced. */
  function Fill(t: string, variation: string): string
    requires OnePlaceholder(t)
  {
    Prefix(t) + variation + Suffix(t)
  }

  predicate Quoted(s: string) {
    |s| >= 2 && s[0] == s[|s| - 1] && IsQuote(s[0])
  }

  function Unquoted(s: string): string {
    if Quoted(s) then Strip(s[1..|s| - 1]) else s
  }

  predicate EndsWith(s: string, suffix: string) {
    |suffix| <= |s| && s[|s| - |suffix|..] == suffix
  }

  /** Text that repeats a template around something that is not blank. */
  predicate Repeats(s: string, prefix: string, suffix: string) {
    && prefix <= s && EndsWith(s, suffix) && |prefix| + |suffix| <= |s|
    && Strip(s[|prefix|..|s| - |suffix|]) != ""
  }

  /** What stands between a template's two parts, when a text repeats it. */
  function Extract(s: string, prefix: string, suffix: string): string {
    if Repeats(s, prefix, suffix) then Strip(s[|prefix|..|s| - |suffix|]) else s
  }

  /** Takes a generated text back to its variation when it repeats the whole template. */
  function Normalize(value: string, t: string): string {
    var variation := Unquoted(Strip(value));
    if OnePlaceholder(t) then Extract(variation, Prefix(t), Suffix(t)) else variation
  }

  lemma {:induction false} FilledIsTrimmed(t: string, variation: string)
    requires OnePlaceholder(t) && Trimmed(t) && Trimmed(variation) && variation != ""
    ensures Trimmed(Fill(t, variation))
  {
    var i := Find(t, 0).value;
    assert t[..i] != [] ==> t[..i][0] == t[0];
    assert Suffix(t) != [] ==> Suffix(t)[|Suffix(t)| - 1] == t[|t| - 1];
  }

  lemma {:induction false} StripTrimmed(s: string)
    requires Trimmed(s)
    ensures Strip(s) == s
  {
  }

  lemma {:induction false} Middle(prefix: string, middle: string, suffix: string)
    ensures var s := prefix + middle + suffix;
            prefix <= s && EndsWith(s, suffix) && s[|prefix|..|s| - |suffix|] == middle
  {
  }

  predicate Blank(s: string) {
    forall i :: 0 <= i < |s| ==> IsSpace(s[i])
  }

  /** A variation has something before or after it that stripping keeps, unless that is blank. */
  lemma {:induction false} StripAround(a: string, middle: string, b: string)
    requires middle != "" && Trimmed(middle)
    ensures Strip(a + middle + b) == middle <==> Blank(a) && Blank(b)
    decreases |a| + |b|
  {
    var s := a + middle + b;
    if a != [] && IsSpace(a[0]) {
      StripAround(a[1..], middle, b);
      assert s[1..] == a[1..] + middle + b;
      assert forall i :: 0 < i < |a| ==> a[i] == a[1..][i - 1];
    } else if b != [] && IsSpace(b[|b| - 1]) {
      var rest := b[..|b| - 1];
      StripAround(a, middle, rest);
      assert s[..|s| - 1] == a + middle + rest;
      assert s[0] == if a != [] then a[0] else middle[0];
      assert b == rest + [b[|b| - 1]];
    } else {
      assert Trimmed(s) by {
        assert s[0] == if a != [] then a[0] else middle[0];
        assert s[|s| - 1] == if b != [] then b[|b| - 1] else middle[|middle| - 1];
      }
      StripTrimmed(s);
      assert |s| == |middle| ==> a == [] && b == [];
    }
  }

  lemma {:induction false} StripShortens(s: string)
    ensures |Strip(s)| <= |s|
  {
    StripLeftShortens(s);
    StripLeftTrims(s);
    StripRightTrims(StripLeft(s));
  }

  lemma {:induction false} StripLeftShortens(s: string)
    ensures |StripLeft(s)| <= |s|
  {
    if s != [] && IsSpace(s[0]) {
      StripLeftShortens(s[1..]);
    }
  }

  lemma {:induction false} ExtractMiddle(prefix: string, middle: string, suffix: string)
    requires Trimmed(middle) && middle != ""
    ensures Extract(prefix + middle + suffix, prefix, suffix) == middle
  {
    Middle(prefix, middle, suffix);
    StripTrimmed(middle);
  }

  /** From a text too short to hold a middle between the two parts, that middle comes back only as the text itself. */
  lemma {:induction false} ExtractShort(s: string, prefix: string, middle: string, suffix: string)
    requires |s| < |prefix| + |middle| + |suffix|
    ensures Extract(s, prefix, suffix) == middle <==> s == middle && !Repeats(s, prefix, suffix)
  {
    if Repeats(s, prefix, suffix) {
      StripShortens(s[|prefix|..|s| - |suffix|]);
    }
  }

  /** A trimmed variation is recovered from its filled template exactly when the filled text does not stand in
      matching quotes, or taking these off leaves the variation, and that does not itself repeat the template. */
  lemma {:induction false} NormalizeUndoesFill(t: string, variation: string)
    requires OnePlaceholder(t) && Trimmed(t) && Trimmed(variation) && variation != ""
    ensures var filled := Fill(t, variation);
            Normalize(filled, t) == variation <==>
            !Quoted(filled) || (Unquoted(filled) == variation && !Repeats(variation, Prefix(t), Suffix(t)))
  {
    var filled := Fill(t, variation);
    FilledIsTrimmed(t, variation);
    StripTrimmed(filled);
    if Quoted(filled) {
      StripShortens(filled[1..|filled| - 1]);
      ExtractShort(Unquoted(filled), Prefix(t), variation, Suffix(t));
    } else {
      ExtractMiddle(Prefix(t), variation, Suffix(t));
    }
  }

  predicate IsQuote(c: char) {
    c == '\'' || c == '"'
  }

  predicate Unmarked(s: string) {
    s != "" && !IsQuote(s[0]) && !IsQuote(s[|s| - 1])
  }

  /** The two parts of a template open and close with the same quote mark. */
  predicate Wraps(prefix: string, suffix: string) {
    prefix != "" && suffix != "" && IsQuote(prefix[0]) && prefix[0] == suffix[|suffix| - 1]
  }

  lemma {:induction false} QuotedByTemplate(prefix: string, middle: string, suffix: string)
    requires Unmarked(middle)
    ensures Quoted(prefix + middle + suffix) <==> Wraps(prefix, suffix)
  {
    var s := prefix + middle + suffix;
    assert s[0] == if prefix != "" then prefix[0] else middle[0];
    assert s[|s| - 1] == if suffix != "" then suffix[|suffix| - 1] else middle[|middle| - 1];
  }

  lemma {:induction false} QuotedByParts(prefix: string, middle: string, suffix: string)
    requires prefix != "" && suffix != ""
    ensures Quoted(prefix + middle + suffix) <==> Wraps(prefix, suffix)
  {
    var s := prefix + middle + suffix;
    assert s[0] == prefix[0] && s[|s| - 1] == suffix[|suffix| - 1];
  }

  lemma {:induction false} InsideQuotes(prefix: string, middle: string, suffix: string)
    requires Wraps(prefix, suffix) && middle != "" && Trimmed(middle)
    ensures Unquoted(prefix + middle + suffix) == middle <==> Blank(prefix[1..]) && Blank(suffix[..|suffix| - 1])
  {
    var s := prefix + middle + suffix;
    QuotedByParts(prefix, middle, suffix);
    StripAround(prefix[1..], middle, suffix[..|suffix| - 1]);
    assert s[1..|s| - 1] == prefix[1..] + middle + suffix[..|suffix| - 1];
  }

  /** For a variation without quote marks at its ends the template alone decides: recovery fails exactly when the
      template stands in quotes and has more than blanks inside them besides its placeholder. */
  lemma {:induction false} TemplateDecides(t: string, variation: string)
    requires OnePlaceholder(t) && Trimmed(t) && Trimmed(variation) && Unmarked(variation)
    ensures Normalize(Fill(t, variation), t) == variation <==>
            (Wraps(Prefix(t), Suffix(t)) ==> Blank(Prefix(t)[1..]) && Blank(Suffix(t)[..|Suffix(t)| - 1]))
  {
    NormalizeUndoesFill(t, variation);
    QuotedByTemplate(Prefix(t), variation, Suffix(t));
    if Wraps(Prefix(t), Suffix(t)) {
      InsideQuotes(Prefix(t), variation, Suffix(t));
      assert Prefix(t)[0] != variation[0];
    }
  }

  /** Where both parts of the template are there, whether it stands in quotes decides, whatever marks the variation
      has of its own. */
  lemma {:induction false} BothPartsDecide(t: string, variation: string)
    requires OnePlaceholder(t) && Trimmed(t) && Trimmed(variation) && variation != ""
    requires Prefix(t) != "" && Suffix(t) != ""
    ensures Normalize(Fill(t, variation), t) == variation <==>
            (Wraps(Prefix(t), Suffix(t)) ==>
               && Blank(Prefix(t)[1..]) && Blank(Suffix(t)[..|Suffix(t)| - 1])
               && !Repeats(variation, Prefix(t), Suffix(t)))
  {
    NormalizeUndoesFill(t, variation);
    QuotedByParts(Prefix(t), variation, Suffix(t));
    if Wraps(Prefix(t), Suffix(t)) {
      InsideQuotes(Prefix(t), variation, Suffix(t));
    }
  }

  /** And where there is nothing but the placeholder, recovery fails exactly for a variation in quotes. */
  lemma {:induction false} BarePlaceholder(variation: string)
    requires Trimmed(variation) && variation != ""
    ensures OnePlaceholder(PLACEHOLDER) && Fill(PLACEHOLDER, variation) == variation
    ensures Normalize(variation, PLACEHOLDER) == variation <==> !Quoted(variation)
  {
    assert PLACEHOLDER == "" + PLACEHOLDER + "";
    TemplateParts("", "");
    assert Fill(PLACEHOLDER, variation) == variation;
    NormalizeUndoesFill(PLACEHOLDER, variation);
    if Quoted(variation) {
      StripShortens(variation[1..|variation| - 1]);
    }
  }

  /** The texts that normalization leaves as they are: trimmed, not in quotes, and not repeating the template around
      something, unless the template is its placeholder alone. */
  lemma {:induction false} UnchangedExactly(s: string, t: string)
    ensures Normalize(s, t) == s <==>
            && Trimmed(s) && !Quoted(s)
            && (OnePlaceholder(t) && Repeats(s, Prefix(t), Suffix(t)) ==> Prefix(t) == "" && Suffix(t) == "")
  {
    StripTrims(s);
    StripShortens(s);
    var trimmed := Strip(s);
    if Quoted(trimmed) {
      StripShortens(trimmed[1..|trimmed| - 1]);
    }
    var variation := Unquoted(trimmed);
    if OnePlaceholder(t) {
      ExtractShortens(variation, Prefix(t), Suffix(t));
    }
    if Trimmed(s) {
      StripTrimmed(s);
    }
  }

  lemma {:induction false} ExtractShortens(s: string, prefix: string, suffix: string)
    ensures |Extract(s, prefix, suffix)| <= |s|
    ensures Repeats(s, prefix, suffix) && (prefix != "" || suffix != "") ==> |Extract(s, prefix, suffix)| < |s|
    ensures prefix == suffix == "" && Trimmed(s) ==> Extract(s, prefix, suffix) == s
  {
    if Repeats(s, prefix, suffix) {
      StripShortens(s[|prefix|..|s| - |suffix|]);
      if prefix == suffix == "" && Trimmed(s) {
        StripTrimmed(s);
        assert s[0..|s|] == s;
      }
    }
  }

  predicate NoBrace(s: string) {
    forall i :: 0 <= i < |s| ==> s[i] != '{'
  }

  lemma {:induction false} NotHere(t: string, i: nat)
    requires i < |t| && t[i] != '{'
    ensures !PlaceholderAt(t, i)
  {
    assert i + |PLACEHOLDER| <= |t| ==> t[i..i + |PLACEHOLDER|][0] == t[i];
  }

  lemma {:induction false} NotBefore(t: string, i: nat, k: nat)
    requires i <= k <= |t| && forall j :: i <= j < k ==> t[j] != '{'
    ensures Find(t, i) == Find(t, k)
    decreases k - i
  {
    if i < k {
      NotHere(t, i);
      NotBefore(t, i + 1, k);
    }
  }

  /** Splitting a template at its placeholder. */
  lemma {:induction false} TemplateParts(prefix: string, suffix: string)
    requires NoBrace(prefix) && NoBrace(suffix)
    ensures var t := prefix + PLACEHOLDER + suffix; OnePlaceholder(t) && Prefix(t) == prefix && Suffix(t) == suffix
  {
    var t := prefix + PLACEHOLDER + suffix;
    var k, n := |prefix|, |prefix| + |PLACEHOLDER|;
    NotBefore(t, 0, k);
    assert PlaceholderAt(t, k);
    NotBefore(t, n, |t|);
    assert t[..k] == prefix && t[n..] == suffix;
  }

  /** So a template in quotes with any other text before its placeholder never gives its variation back. */
  lemma {:induction false} QuotesGetInTheWay(quote: char, head: string, variation: string)
    requires IsQuote(quote) && !Blank(head) && NoBrace(head)
    requires Trimmed(variation) && Unmarked(variation)
    ensures var t := [quote] + head + PLACEHOLDER + [quote];
            OnePlaceholder(t) && Normalize(Fill(t, variation), t) != variation
  {
    var t := [quote] + head + PLACEHOLDER + [quote];
    TemplateParts([quote] + head, [quote]);
    assert Prefix(t)[1..] == head;
    TemplateDecides(t, variation);
  }

  // ---------------------------------------------------------------- key lists

  function CommaFrom(s: string, i: nat): (r: nat)
    requires i <= |s|
    ensures i <= r <= |s|
    ensures forall j :: i <= j < r ==> s[j] != ','
    ensures r < |s| ==> s[r] == ','
    decreases |s| - i
  {
    if i == |s| || s[i] == ',' then i else CommaFrom(s, i + 1)
  }

  function SplitOnComma(s: string): seq<string>
    decreases |s|
  {
    var i := CommaFrom(s, 0);
    if i == |s| then [s] else [s[..i]] + SplitOnComma(s[i + 1..])
  }

  function StripAll(items: seq<string>): seq<string> {
    if items == [] then []
    else if Strip(items[0]) == "" then StripAll(items[1..])
    else [Strip(items[0])] + StripAll(items[1..])
  }

  function SplitList(s: string): seq<string> {
    StripAll(SplitOnComma(s))
  }

  function Join(keys: seq<string>): string {
    if keys == [] then "" else if |keys| == 1 then keys[0] else keys[0] + ", " + Join(keys[1..])
  }

  predicate CommaFree(s: string) {
    forall i :: 0 <= i < |s| ==> s[i] != ','
  }

  predicate IsKey(k: string) {
    k != "" && Trimmed(k) && CommaFree(k)
  }

  predicate AreKeys(keys: seq<string>) {
    forall i :: 0 <= i < |keys| ==> IsKey(keys[i])
  }

  lemma {:induction false} SplitFirst(head: string, tail: string)
    requires CommaFree(head)
    ensures SplitOnComma(head + "," + tail) == [head] + SplitOnComma(tail)
  {
    var s := head + "," + tail;
    assert s[|head|] == ',';
    assert forall j :: 0 <= j < |head| ==> s[j] == head[j];
    assert CommaFrom(s, 0) == |head|;
    assert s[..|head|] == head && s[|head| + 1..] == tail;
  }

  lemma {:induction false} SplitWhole(s: string)
    requires CommaFree(s)
    ensures SplitOnComma(s) == [s]
  {
  }

  /** A leading space changes nothing. */
  lemma {:induction false} LeadingSpace(s: string)
    ensures SplitList(" " + s) == SplitList(s)
  {
    var i := CommaFrom(s, 0);
    if i == |s| {
      SplitWhole(s);
      SplitWhole(" " + s);
      StripSpace(s);
      StripOne(s);
      StripOne(" " + s);
    } else {
      assert s == s[..i] + "," + s[i + 1..];
      assert " " + s == (" " + s[..i]) + "," + s[i + 1..];
      SplitFirst(s[..i], s[i + 1..]);
      SplitFirst(" " + s[..i], s[i + 1..]);
      StripSpace(s[..i]);
      assert StripAll([s[..i]] + SplitOnComma(s[i + 1..])) == StripAll([" " + s[..i]] + SplitOnComma(s[i + 1..])) by {
        StripCons(s[..i], SplitOnComma(s[i + 1..]));
        StripCons(" " + s[..i], SplitOnComma(s[i + 1..]));
      }
    }
  }

  lemma {:induction false} StripSpace(s: string)
    ensures Strip(" " + s) == Strip(s)
  {
    assert (" " + s)[1..] == s;
  }

  lemma {:induction false} StripCons(item: string, items: seq<string>)
    ensures StripAll([item] + items) ==
            if Strip(item) == "" then StripAll(items) else [Strip(item)] + StripAll(items)
  {
    assert ([item] + items)[1..] == items;
  }

  lemma {:induction false} StripOne(item: string)
    ensures StripAll([item]) == if Strip(item) == "" then [] else [Strip(item)]
  {
    StripCons(item, []);
    assert [item] + [] == [item];
  }

  lemma {:induction false} StripConcat(a: seq<string>, b: seq<string>)
    ensures StripAll(a + b) == StripAll(a) + StripAll(b)
  {
    if a == [] {
      assert a + b == b;
    } else {
      assert a + b == [a[0]] + (a[1..] + b);
      assert a == [a[0]] + a[1..];
      StripConcat(a[1..], b);
      StripCons(a[0], a[1..] + b);
      StripCons(a[0], a[1..]);
    }
  }

  lemma {:induction false} CommaParts(a: string, i: nat)
    requires i < |a| && a[i] == ','
    ensures a == a[..i] + "," + a[i + 1..]
  {
  }

  lemma {:induction false} CommasAssociate(a: string, b: string, c: string)
    ensures a + "," + b + "," + c == a + "," + (b + "," + c)
  {
  }

  lemma {:induction false} CommaSplits(a: string, b: string)
    ensures SplitOnComma(a + "," + b) == SplitOnComma(a) + SplitOnComma(b)
    decreases |a|
  {
    var i := CommaFrom(a, 0);
    if i == |a| {
      SplitWhole(a);
      SplitFirst(a, b);
    } else {
      var head, tail := a[..i], a[i + 1..];
      CommaParts(a, i);
      CommasAssociate(head, tail, b);
      CommaSplits(tail, b);
      SplitFirst(head, tail + "," + b);
      SplitFirst(head, tail);
      assert [head] + (SplitOnComma(tail) + SplitOnComma(b)) == [head] + SplitOnComma(tail) + SplitOnComma(b);
    }
  }

  /** What splitting is on any text at all: a piece without commas yields what is left of it when it is trimmed, if
      anything is, and a comma joins what its two sides yield. */
  lemma {:induction false} SplitByPieces(a: string, b: string)
    ensures CommaFree(a) ==> SplitList(a) == if Strip(a) == "" then [] else [Strip(a)]
    ensures SplitList(a + "," + b) == SplitList(a) + SplitList(b)
  {
    if CommaFree(a) {
      SplitWhole(a);
      StripOne(a);
    }
    CommaSplits(a, b);
    StripConcat(SplitOnComma(a), SplitOnComma(b));
  }

  /** Splitting recovers any list of trimmed, non-empty, comma-free keys joined with a comma and a space. */
  lemma {:induction false} SplitUndoesJoin(keys: seq<string>)
    requires AreKeys(keys)
    ensures SplitList(Join(keys)) == keys
  {
    if keys == [] {
      SplitWhole("");
      assert StripAll([""]) == StripAll([""][1..]);
    } else {
      var k, rest := keys[0], keys[1..];
      assert IsKey(k);
      if |keys| == 1 {
        SplitOneKey(k);
      } else {
        SplitUndoesJoin(rest);
        SplitKeyFirst(k, Join(rest));
      }
    }
  }

  lemma {:induction false} SplitOneKey(k: string)
    requires IsKey(k)
    ensures SplitList(k) == [k]
  {
    SplitWhole(k);
    StripOne(k);
    StripTrimmed(k);
  }

  lemma {:induction false} CommaThenSpace(k: string, rest: string)
    ensures k + ", " + rest == k + "," + (" " + rest)
  {
  }

  lemma {:induction false} SplitKeyThen(k: string, tail: string)
    requires IsKey(k)
    ensures SplitList(k + "," + tail) == [k] + SplitList(tail)
  {
    StripTrimmed(k);
    SplitFirst(k, tail);
    StripCons(k, SplitOnComma(tail));
  }

  lemma {:induction false} SplitKeyFirst(k: string, rest: string)
    requires IsKey(k)
    ensures SplitList(k + ", " + rest) == [k] + SplitList(rest)
  {
    CommaThenSpace(k, rest);
    SplitKeyThen(k, " " + rest);
    LeadingSpace(rest);
  }

  lemma {:induction false} StripIsKey(s: string)
    requires CommaFree(s) && Strip(s) != ""
    ensures IsKey(Strip(s))
  {
    StripTrims(s);
    var k := Strip(s);
    forall j | 0 <= j < |k| ensures k[j] != ',' {
      assert k[j] in k;
    }
  }

  lemma {:induction false} KeysCons(item: string, items: seq<string>)
    requires CommaFree(item) && AreKeys(StripAll(items))
    ensures AreKeys(StripAll([item] + items))
  {
    StripCons(item, items);
    if Strip(item) != "" {
      StripIsKey(item);
    }
  }

  /** And splitting always yields such keys. */
  lemma {:induction false} SplitYieldsKeys(s: string)
    ensures AreKeys(SplitList(s))
    decreases |s|
  {
    var i := CommaFrom(s, 0);
    if i == |s| {
      SplitWhole(s);
      KeysCons(s, []);
      assert [s] + [] == [s];
    } else {
      SplitYieldsKeys(s[i + 1..]);
      KeysCons(s[..i], SplitOnComma(s[i + 1..]));
    }
  }
}
