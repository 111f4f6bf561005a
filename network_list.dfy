/** The post-processing of the Wi-Fi characteristic's value into a list of network names:
    split on commas, keep the first occurrence of each field, drop blank fields. */
module NetworkList {
  import opened Common

  /** The code points JavaScript's `String.prototype.trim` removes
      (ECMAScript WhiteSpace and LineTerminator). */
  predicate IsTrimmed(c: char) {
    || c == '\t' || c == '\n' || c == '\U{000B}' || c == '\U{000C}' || c == '\r' || c == ' '
    || c == '\U{00A0}' || c == '\U{1680}' || ('\U{2000}' <= c && c <= '\U{200A}')
    || c == '\U{2028}' || c == '\U{2029}' || c == '\U{202F}' || c == '\U{205F}'
    || c == '\U{3000}' || c == '\U{FEFF}'
  }

  /** `s.trim() === ''`: trimming removes every character. */
  predicate IsBlank(s: string) {
    forall i :: 0 <= i < |s| ==> IsTrimmed(s[i])
  }

  predicate NoDuplicates(xs: seq<string>) {
    forall i, j :: 0 <= i < j < |xs| ==> xs[i] != xs[j]
  }

  /** `s.split(sep)` for a one-character separator: the separator-free fields between
      separators, always at least one (the empty string splits into one empty field). */
  function Split(s: string, sep: char): (fields: seq<string>)
    ensures |fields| >= 1
    ensures forall f :: f in fields ==> sep !in f
  {
    if s == [] then [[]]
    else
      var rest := Split(s[1..], sep);
      if s[0] == sep then [[]] + rest
      else [[s[0]] + rest[0]] + rest[1..]
  }

  /** `fields.join(sep)`. */
  function Join(fields: seq<string>, sep: char): string {
    if fields == [] then []
    else if |fields| == 1 then fields[0]
    else fields[0] + [sep] + Join(fields[1..], sep)
  }

  /** Position of the first occurrence of `x` in `xs`, or `|xs|` when it does not occur. */
  function FirstIndex(xs: seq<string>, x: string): (k: nat)
    ensures k <= |xs|
    ensures k < |xs| <==> x in xs
    ensures k < |xs| ==> xs[k] == x
    ensures forall j :: 0 <= j < k ==> xs[j] != x
  {
    if xs == [] then 0
    else
      var k := FirstIndex(xs[..|xs| - 1], x);
      if k < |xs| - 1 then k
      else if xs[|xs| - 1] == x then |xs| - 1
      else |xs|
  }

  /** `[...new Set(xs)]`: a Set is filled in iteration order and remembers insertion order. */
  function Dedup(xs: seq<string>): (r: seq<string>)
    ensures NoDuplicates(r)
    ensures forall x :: x in r <==> x in xs
  {
    if xs == [] then []
    else
      var prefix := Dedup(xs[..|xs| - 1]);
      assert xs == xs[..|xs| - 1] + [xs[|xs| - 1]];
      if xs[|xs| - 1] in prefix then prefix else prefix + [xs[|xs| - 1]]
  }

  /** `.filter(n => n.trim() !== '')`. */
  function DropBlank(xs: seq<string>): (r: seq<string>)
    ensures forall x :: x in r <==> x in xs && !IsBlank(x)
  {
    if xs == [] then []
    else if IsBlank(xs[0]) then DropBlank(xs[1..])
    else [xs[0]] + DropBlank(xs[1..])
  }

  /** The elements of `r` have strictly increasing positions under `pos`. */
  predicate OrderedBy(r: seq<string>, pos: string -> nat) {
    forall i, j :: 0 <= i < j < |r| ==> pos(r[i]) < pos(r[j])
  }

  /** The elements of `r` appear in the order in which they first occur in `xs`. */
  predicate InFirstOccurrenceOrder(r: seq<string>, xs: seq<string>) {
    OrderedBy(r, y => FirstIndex(xs, y))
  }

  /** The network names carried by the decoded value of the Wi-Fi characteristic. */
  function ParseNetworks(text: string): (names: seq<string>)
    ensures forall x :: x in names <==> x in Split(text, ',') && !IsBlank(x)
    ensures forall x :: x in names ==> ',' !in x && !IsBlank(x)
  {
    DropBlank(Dedup(Split(text, ',')))
  }

  /** The read handler's treatment of the characteristic's value: a missing or empty value
      yields no networks, anything else is parsed. */
  function NetworksFromValue(value: Option<string>): (names: seq<string>)
    ensures value.None? || value == Some("") ==> names == []
    ensures value.Some? ==> names == ParseNetworks(value.value)
  {
    if value.Some? && value.value != "" then ParseNetworks(value.value) else []
  }

  // ----- Order and uniqueness -----

  lemma {:induction false} DedupFirstOccurrenceOrder(xs: seq<string>)
    ensures InFirstOccurrenceOrder(Dedup(xs), xs)
  {
    if xs != [] {
      var p, y := xs[..|xs| - 1], xs[|xs| - 1];
      assert xs == p + [y];
      DedupFirstOccurrenceOrder(p);
      var d := Dedup(p);
      forall z | z in p ensures FirstIndex(xs, z) == FirstIndex(p, z) < |p| {
        assert xs[..|xs| - 1] == p;
      }
      if y !in d {
        assert y !in p;
        assert xs[..|xs| - 1] == p;
        assert FirstIndex(xs, y) == |p|;
        assert Dedup(xs) == d + [y];
        forall i, j | 0 <= i < j < |d + [y]|
          ensures FirstIndex(xs, (d + [y])[i]) < FirstIndex(xs, (d + [y])[j])
        {
          assert (d + [y])[i] == d[i] && d[i] in p;
          if j < |d| {
            assert (d + [y])[j] == d[j] && d[j] in p;
          }
        }
      } else {
        assert Dedup(xs) == d;
        forall i, j | 0 <= i < j < |d|
          ensures FirstIndex(xs, d[i]) < FirstIndex(xs, d[j])
        {
          assert d[i] in p && d[j] in p;
        }
      }
    }
  }

  /** The tail of an ordered list is ordered, and comes after its head. */
  lemma OrderedTail(r: seq<string>, pos: string -> nat)
    requires r != [] && OrderedBy(r, pos)
    ensures OrderedBy(r[1..], pos)
    ensures forall y :: y in r[1..] ==> pos(r[0]) < pos(y)
  {
    var tail := r[1..];
    forall i, j | 0 <= i < j < |tail| ensures pos(tail[i]) < pos(tail[j]) {
      assert tail[i] == r[i + 1] && tail[j] == r[j + 1];
    }
    forall y | y in tail ensures pos(r[0]) < pos(y) {
      var k :| 0 <= k < |tail| && tail[k] == y;
      assert r[k + 1] == y;
    }
  }

  /** An element placed before an ordered list it precedes keeps the list ordered. */
  lemma OrderedCons(x: string, d: seq<string>, pos: string -> nat)
    requires OrderedBy(d, pos)
    requires forall k :: 0 <= k < |d| ==> pos(x) < pos(d[k])
    ensures OrderedBy([x] + d, pos)
  {
    var out := [x] + d;
    forall i, j | 0 <= i < j < |out| ensures pos(out[i]) < pos(out[j]) {
      assert out[j] == d[j - 1];
      if i > 0 {
        assert out[i] == d[i - 1];
      }
    }
  }

  /** Dropping blank entries keeps any order the list had. */
  lemma {:induction false} DropBlankKeepsOrder(r: seq<string>, pos: string -> nat)
    requires OrderedBy(r, pos)
    ensures OrderedBy(DropBlank(r), pos)
  {
    if r != [] {
      OrderedTail(r, pos);
      DropBlankKeepsOrder(r[1..], pos);
      if !IsBlank(r[0]) {
        var d := DropBlank(r[1..]);
        forall k | 0 <= k < |d| ensures pos(r[0]) < pos(d[k]) {
          assert d[k] in d;
        }
        OrderedCons(r[0], d, pos);
      }
    }
  }

  lemma OrderedHasNoDuplicates(r: seq<string>, pos: string -> nat)
    requires OrderedBy(r, pos)
    ensures NoDuplicates(r)
  {
  }

  /** Parsed names are distinct and appear in the order of their first occurrence among the
      comma-separated fields. */
  lemma ParseNetworksOrder(text: string)
    ensures NoDuplicates(ParseNetworks(text))
    ensures InFirstOccurrenceOrder(ParseNetworks(text), Split(text, ','))
  {
    var fields := Split(text, ',');
    DedupFirstOccurrenceOrder(fields);
    var pos := y => FirstIndex(fields, y);
    DropBlankKeepsOrder(Dedup(fields), pos);
    OrderedHasNoDuplicates(ParseNetworks(text), pos);
  }

  // ----- Split and Join are inverse -----

  /** Splitting a string that starts with a separator-free chunk extends the first field. */
  lemma {:induction false} SplitAfterChunk(x: string, t: string, sep: char)
    requires sep !in x
    ensures Split(x + t, sep) == [x + Split(t, sep)[0]] + Split(t, sep)[1..]
  {
    var s := Split(t, sep);
    if x == [] {
      assert x + t == t;
      assert x + s[0] == s[0];
      assert [s[0]] + s[1..] == s;
    } else {
      var x' := x[1..];
      assert (x + t)[0] == x[0] && (x + t)[1..] == x' + t;
      SplitAfterChunk(x', t, sep);
      assert [x[0]] + (x' + s[0]) == x + s[0];
    }
  }

  /** A leading separator opens an empty first field. */
  lemma SplitAfterSeparator(t: string, sep: char)
    ensures Split([sep] + t, sep) == [[]] + Split(t, sep)
  {
    assert ([sep] + t)[1..] == t;
  }

  lemma {:induction false} SplitJoin(fields: seq<string>, sep: char)
    requires fields != []
    requires forall f :: f in fields ==> sep !in f
    ensures Split(Join(fields, sep), sep) == fields
  {
    var f := fields[0];
    if |fields| == 1 {
      SplitAfterChunk(f, [], sep);
      assert f + [] == f;
    } else {
      var r := fields[1..];
      assert forall g :: g in r ==> g in fields;
      SplitJoin(r, sep);
      var t := [sep] + Join(r, sep);
      assert Join(fields, sep) == f + t;
      SplitAfterSeparator(Join(r, sep), sep);
      SplitAfterChunk(f, t, sep);
      assert f + [] == f;
      assert [f] + r == fields;
    }
  }

  lemma JoinCons(f: string, r: seq<string>, sep: char)
    requires r != []
    ensures Join([f] + r, sep) == f + [sep] + Join(r, sep)
  {
    assert ([f] + r)[1..] == r;
  }

  /** Prefixing the first field with a character prefixes the join with it. */
  lemma JoinExtendFirst(c: char, fields: seq<string>, sep: char)
    requires fields != []
    ensures Join([[c] + fields[0]] + fields[1..], sep) == [c] + Join(fields, sep)
  {
    var f, r := fields[0], fields[1..];
    if r == [] {
      assert [[c] + f] + r == [[c] + f];
    } else {
      JoinCons([c] + f, r, sep);
      assert fields == [f] + r;
      JoinCons(f, r, sep);
    }
  }

  lemma {:induction false} JoinSplit(s: string, sep: char)
    ensures Join(Split(s, sep), sep) == s
  {
    if s != [] {
      var rest := Split(s[1..], sep);
      JoinSplit(s[1..], sep);
      if s[0] == sep {
        JoinCons([], rest, sep);
        assert [] + [sep] + s[1..] == s;
      } else {
        JoinExtendFirst(s[0], rest, sep);
        assert [s[0]] + s[1..] == s;
      }
    }
  }

  // ----- Parsing an already parsed list -----

  lemma {:induction false} DedupOfDistinct(xs: seq<string>)
    requires NoDuplicates(xs)
    ensures Dedup(xs) == xs
  {
    if xs != [] {
      var p := xs[..|xs| - 1];
      DedupOfDistinct(p);
      assert xs == p + [xs[|xs| - 1]];
      assert xs[|xs| - 1] !in p;
    }
  }

  lemma {:induction false} DropBlankOfNonBlank(xs: seq<string>)
    requires forall x :: x in xs ==> !IsBlank(x)
    ensures DropBlank(xs) == xs
  {
    if xs != [] {
      DropBlankOfNonBlank(xs[1..]);
      assert [xs[0]] + xs[1..] == xs;
    }
  }

  /** Parsing the comma-join of a parsed list gives the same list back. */
  lemma ParseJoinedNetworks(text: string)
    ensures ParseNetworks(Join(ParseNetworks(text), ',')) == ParseNetworks(text)
    ensures NetworksFromValue(Some(Join(ParseNetworks(text), ','))) == ParseNetworks(text)
  {
    var names := ParseNetworks(text);
    if names == [] {
      assert Join(names, ',') == [];
      assert Split([], ',') == [[]];
      assert IsBlank([]);
      assert Dedup([[]]) == [[]];
    } else {
      SplitJoin(names, ',');
      ParseNetworksOrder(text);
      DedupOfDistinct(names);
      DropBlankOfNonBlank(names);
    }
  }
}
