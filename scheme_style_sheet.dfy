/**
 * The colour-scheme stylesheet generator: from an ordered list of named themed values and a
 * prefix it builds the map from each name to a CSS `var(...)` reference, the declarations of
 * the light theme (every entry) and those of the dark theme (only the entries that carry a
 * [light, dark] pair).
 */
module SchemeStyleSheet {

  /** A themed value: one string for every scheme, or a [light, dark] pair. */
  datatype ThemedValue = Single(value: string) | Pair(light: string, dark: string)

  /** One `(name, value)` entry of the scheme, in the order the scheme object lists it. */
  type Entry = (string, ThemedValue)

  type Scheme = seq<Entry>

  /** The CSS custom property that holds the value named `name`. */
  function VariableName(name: string, prefix: string): (r: string)
    ensures |r| == |prefix| + |name| + 3
    ensures r[..2] == "--" && r[2..|prefix| + 2] == prefix && r[|prefix| + 2] == '-'
    ensures r[|prefix| + 3..] == name
  {
    "--" + prefix + "-" + name
  }

  /** Under one prefix, distinct names give distinct custom properties. */
  lemma VariableNameInjective(a: string, b: string, prefix: string)
    requires VariableName(a, prefix) == VariableName(b, prefix)
    ensures a == b
  {
  }

  /** The reference `var(--prefix-name)` that the variables map hands out for `name`. */
  function VariableReference(name: string, prefix: string): string {
    "var(" + VariableName(name, prefix) + ")"
  }

  /** The names the scheme lists. */
  function Names(scheme: Scheme): set<string> {
    set e | e in scheme :: e.0
  }

  /**
   * The `variables` map, built by a left fold over the scheme's keys that adds one
   * `name -> var(--prefix-name)` pair per key.
   */
  function Variables(scheme: Scheme, prefix: string): (r: map<string, string>)
    ensures r.Keys == Names(scheme)
    ensures forall name :: name in r ==> r[name] == VariableReference(name, prefix)
    decreases |scheme|
  {
    if scheme == [] then map[]
    else
      var init, last := scheme[..|scheme| - 1], scheme[|scheme| - 1];
      assert scheme == init + [last];
      Variables(init, prefix)[last.0 := VariableReference(last.0, prefix)]
  }

  /** The value a light scheme uses: the first element of a pair, or the single value. */
  function LightValue(v: ThemedValue): string {
    match v
    case Single(s) => s
    case Pair(light, _) => light
  }

  /** One declaration `--prefix-name: value;`. */
  function Declaration(name: string, value: string, prefix: string): (r: string)
    ensures |r| > 0
  {
    VariableName(name, prefix) + ": " + value + ";"
  }

  /** `Array.prototype.join("")`: the parts concatenated in order, with no separator. */
  function Join(parts: seq<string>): string {
    if parts == [] then "" else parts[0] + Join(parts[1..])
  }

  /** The light declarations: one per entry, in entry order. */
  function LightDeclarations(scheme: Scheme, prefix: string): (r: seq<string>)
    ensures |r| == |scheme|
    ensures forall i :: 0 <= i < |scheme| ==>
              r[i] == Declaration(scheme[i].0, LightValue(scheme[i].1), prefix)
  {
    if scheme == [] then []
    else [Declaration(scheme[0].0, LightValue(scheme[0].1), prefix)]
         + LightDeclarations(scheme[1..], prefix)
  }

  /** The entries that carry a [light, dark] pair, in entry order (the `filter` step). */
  function PairEntries(scheme: Scheme): (r: Scheme)
    ensures |r| <= |scheme|
    ensures forall i :: 0 <= i < |r| ==> r[i].1.Pair? && r[i] in scheme
    ensures forall e :: e in scheme && e.1.Pair? ==> e in r
    ensures r == [] <==> forall e :: e in scheme ==> e.1.Single?
    ensures (forall e :: e in scheme ==> e.1.Pair?) ==> r == scheme
  {
    if scheme == [] then []
    else if scheme[0].1.Pair? then [scheme[0]] + PairEntries(scheme[1..])
    else PairEntries(scheme[1..])
  }

  /**
   * The filter keeps order and multiplicity: adding an entry appends it to the pair entries when
   * it is a pair, and appends nothing otherwise.
   */
  lemma {:induction false} PairEntriesAppend(scheme: Scheme, e: Entry)
    ensures PairEntries(scheme + [e]) == PairEntries(scheme) + (if e.1.Pair? then [e] else [])
  {
    if scheme == [] {
      assert [e][1..] == [];
    } else {
      assert (scheme + [e])[1..] == scheme[1..] + [e];
      PairEntriesAppend(scheme[1..], e);
    }
  }

  /**
   * The dark declarations: the filter over pair entries fused with the `map` that declares
   * each pair's second element.
   */
  function DarkDeclarations(scheme: Scheme, prefix: string): (r: seq<string>)
    ensures |r| <= |scheme|
  {
    if scheme == [] then []
    else if scheme[0].1.Pair? then
      [Declaration(scheme[0].0, scheme[0].1.dark, prefix)] + DarkDeclarations(scheme[1..], prefix)
    else DarkDeclarations(scheme[1..], prefix)
  }

  /**
   * The fused recursion is the source's `filter` then `map`: position by position, the dark
   * declarations are the pair entries declared with their second element.
   */
  lemma {:induction false} DarkDeclarationsFilterThenMap(scheme: Scheme, prefix: string)
    ensures |DarkDeclarations(scheme, prefix)| == |PairEntries(scheme)|
    ensures forall i :: 0 <= i < |PairEntries(scheme)| ==>
              DarkDeclarations(scheme, prefix)[i]
              == Declaration(PairEntries(scheme)[i].0, PairEntries(scheme)[i].1.dark, prefix)
  {
    if scheme != [] {
      DarkDeclarationsFilterThenMap(scheme[1..], prefix);
    }
  }

  /** The light theme's declaration string. */
  function LightSheet(scheme: Scheme, prefix: string): string {
    Join(LightDeclarations(scheme, prefix))
  }

  /** The dark theme's declaration string. */
  function DarkSheet(scheme: Scheme, prefix: string): string {
    Join(DarkDeclarations(scheme, prefix))
  }

  /** Joining two lists is joining each and concatenating: no separator is inserted. */
  lemma {:induction false} JoinAppend(a: seq<string>, b: seq<string>)
    ensures Join(a + b) == Join(a) + Join(b)
  {
    if a == [] {
      assert a + b == b;
    } else {
      assert (a + b)[1..] == a[1..] + b;
      JoinAppend(a[1..], b);
    }
  }

  /** A joined list is empty exactly when every part is empty. */
  lemma {:induction false} JoinEmpty(parts: seq<string>)
    ensures Join(parts) == "" <==> forall i :: 0 <= i < |parts| ==> parts[i] == ""
  {
    if parts != [] {
      JoinEmpty(parts[1..]);
      assert forall i :: 1 <= i < |parts| ==> parts[i] == parts[1..][i - 1];
    }
  }

  /**
   * The light sheet grows by exactly one declaration per added entry, appended after the
   * existing ones: it is the in-order concatenation of the entries' declarations.
   */
  lemma LightSheetAppend(scheme: Scheme, e: Entry, prefix: string)
    ensures LightSheet(scheme + [e], prefix)
            == LightSheet(scheme, prefix) + Declaration(e.0, LightValue(e.1), prefix)
  {
    var d := Declaration(e.0, LightValue(e.1), prefix);
    assert LightDeclarations(scheme + [e], prefix) == LightDeclarations(scheme, prefix) + [d];
    JoinAppend(LightDeclarations(scheme, prefix), [d]);
    assert Join([d]) == d + Join([]);
  }

  /** The dark sheet grows by the entry's dark declaration when it is a pair, and not at all otherwise. */
  lemma {:induction false} DarkSheetAppend(scheme: Scheme, e: Entry, prefix: string)
    ensures DarkSheet(scheme + [e], prefix)
            == DarkSheet(scheme, prefix) + (if e.1.Pair? then Declaration(e.0, e.1.dark, prefix) else "")
  {
    DarkDeclarationsAppend(scheme, e, prefix);
    if e.1.Pair? {
      var d := Declaration(e.0, e.1.dark, prefix);
      JoinAppend(DarkDeclarations(scheme, prefix), [d]);
      assert Join([d]) == d + Join([]);
    } else {
      assert DarkDeclarations(scheme, prefix) + [] == DarkDeclarations(scheme, prefix);
    }
  }

  lemma {:induction false} DarkDeclarationsAppend(scheme: Scheme, e: Entry, prefix: string)
    ensures DarkDeclarations(scheme + [e], prefix)
            == DarkDeclarations(scheme, prefix) + (if e.1.Pair? then [Declaration(e.0, e.1.dark, prefix)] else [])
  {
    if scheme == [] {
      assert [e][1..] == [];
    } else {
      assert (scheme + [e])[1..] == scheme[1..] + [e];
      DarkDeclarationsAppend(scheme[1..], e, prefix);
    }
  }

  /** The dark sheet never declares more variables than the light sheet. */
  lemma DarkNoLongerThanLight(scheme: Scheme, prefix: string)
    ensures |DarkDeclarations(scheme, prefix)| <= |LightDeclarations(scheme, prefix)|
  {
  }

  /** The dark sheet is empty exactly when no entry is a pair. */
  lemma DarkSheetEmptyIffNoPairs(scheme: Scheme, prefix: string)
    ensures DarkSheet(scheme, prefix) == "" <==> forall e :: e in scheme ==> e.1.Single?
  {
    DarkDeclarationsFilterThenMap(scheme, prefix);
  }

  /**
   * When every entry is a pair, the dark sheet declares the same variables, in the same order,
   * as the light sheet, each with the pair's second element instead of its first.
   */
  lemma AllPairsSameVariables(scheme: Scheme, prefix: string)
    requires forall e :: e in scheme ==> e.1.Pair?
    ensures |DarkDeclarations(scheme, prefix)| == |LightDeclarations(scheme, prefix)|
    ensures forall i :: 0 <= i < |scheme| ==>
              && LightDeclarations(scheme, prefix)[i] == Declaration(scheme[i].0, scheme[i].1.light, prefix)
              && DarkDeclarations(scheme, prefix)[i] == Declaration(scheme[i].0, scheme[i].1.dark, prefix)
  {
    DarkDeclarationsFilterThenMap(scheme, prefix);
  }
}
