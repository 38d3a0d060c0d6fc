/** Topic slugs and display names: slug and friendlyName of mqtt.go. */
module Naming {
  /** The unicode character classes and ToLower. */
  datatype Unicode = Unicode(
    isUpper: char -> bool,
    isLower: char -> bool,
    isDigit: char -> bool,
    toLower: char -> char)

  predicate AsciiUpper(c: char) { 'A' <= c <= 'Z' }
  predicate AsciiLower(c: char) { 'a' <= c <= 'z' }
  predicate AsciiDigit(c: char) { '0' <= c <= '9' }
  predicate AlphaNumeric(c: char) { AsciiUpper(c) || AsciiLower(c) || AsciiDigit(c) }

  function AsciiToLower(c: char): char {
    if AsciiUpper(c) then (c as int + 32) as char else c
  }

  /** What is used of the Unicode tables: they agree with ASCII below 0x80, and no character lower-cases to an ASCII
      capital. */
  ghost predicate Faithful(u: Unicode) {
    && (forall c: char | c < '\U{80}' ::
          u.isUpper(c) == AsciiUpper(c) && u.isLower(c) == AsciiLower(c) && u.isDigit(c) == AsciiDigit(c))
    && (forall c: char | c < '\U{80}' :: u.toLower(c) == AsciiToLower(c))
    && (forall c: char :: !AsciiUpper(u.toLower(c)))
  }

  /** A word starts at position i: an upper-case letter after a lower-case one or a digit, or the last of several
      upper-case letters if a lower-case one follows. */
  predicate StartsWord(u: Unicode, value: string, i: nat)
    requires i < |value|
  {
    && 0 < i && u.isUpper(value[i])
    && (|| u.isLower(value[i - 1]) || u.isDigit(value[i - 1])
        || (u.isUpper(value[i - 1]) && i + 1 < |value| && u.isLower(value[i + 1])))
  }

  /** The first n characters, each put through f, with a separator before each word but the first. */
  function Spread(u: Unicode, value: string, n: nat, separator: char, f: char -> char): string
    requires n <= |value|
  {
    if n == 0 then ""
    else
      Spread(u, value, n - 1, separator, f)
      + (if StartsWord(u, value, n - 1) then [separator] else [])
      + [f(value[n - 1])]
  }

  /** Every maximal run of characters that are not alphanumeric becomes one underscore. */
  function Squeeze(s: string): string {
    if s == "" then ""
    else
      var last := |s| - 1;
      if AlphaNumeric(s[last]) then Squeeze(s[..last]) + [s[last]]
      else if last > 0 && !AlphaNumeric(s[last - 1]) then Squeeze(s[..last])
      else Squeeze(s[..last]) + "_"
  }

  /** Underscores at the ends removed. */
  function Trim(s: string): string
    decreases |s|
  {
    if s == "" then ""
    else if s[0] == '_' then Trim(s[1..])
    else if s[|s| - 1] == '_' then Trim(s[..|s| - 1])
    else s
  }

  function Slugged(u: Unicode, value: string): string {
    Trim(Squeeze(Spread(u, value, |value|, '_', u.toLower)))
  }

  method Slug(u: Unicode, value: string) returns (slug: string)
    requires Faithful(u)
    ensures slug == Slugged(u, value)
  {
    var output := "";
    for index := 0 to |value|
      invariant output == Spread(u, value, index, '_', u.toLower)
    {
      var current := value[index];
      if index > 0 && u.isUpper(current) {
        var previous := value[index - 1];
        var next := '\0';
        if index + 1 < |value| {
          next := value[index + 1];
        }
        if u.isLower(previous) || u.isDigit(previous) || (u.isUpper(previous) && u.isLower(next)) {
          output := output + "_";
        }
      }
      output := output + [u.toLower(current)];
    }
    slug := Trim(Squeeze(output));
  }

  function Join(words: seq<string>, separator: string): string {
    if words == [] then ""
    else if |words| == 1 then words[0]
    else Join(words[..|words| - 1], separator) + separator + words[|words| - 1]
  }

  function Unchanged(c: char): char { c }

  function Friendly(u: Unicode, value: string): string {
    Spread(u, value, |value|, ' ', Unchanged)
  }

  method FriendlyName(u: Unicode, value: string) returns (name: string)
    requires Faithful(u)
    ensures name == Friendly(u, value)
  {
    var words: seq<string> := [];
    var current := "";
    for index := 0 to |value|
      invariant index == 0 ==> words == []
      invariant index > 0 <==> current != ""
      invariant Join(words + [current], " ") == Spread(u, value, index, ' ', Unchanged)
    {
      var character := value[index];
      var previous, next := '\0', '\0';
      if index > 0 {
        previous := value[index - 1];
      }
      if index + 1 < |value| {
        next := value[index + 1];
      }
      var boundary :=
        && |current| > 0 && u.isUpper(character)
        && (u.isLower(previous) || u.isDigit(previous) || (u.isUpper(previous) && u.isLower(next)));
      assert boundary == StartsWord(u, value, index);
      if boundary {
        JoinOneMore(words + [current], "", " ");
        words := words + [current];
        current := "";
      }
      JoinGrows(words, current, [character], " ");
      current := current + [character];
    }
    if current != "" {
      words := words + [current];
    }
    name := Join(words, " ");
  }

  lemma {:induction false} JoinOneMore(words: seq<string>, word: string, separator: string)
    requires words != []
    ensures Join(words + [word], separator) == Join(words, separator) + separator + word
  {
    assert (words + [word])[..|words|] == words;
  }

  lemma {:induction false} JoinGrows(words: seq<string>, word: string, more: string, separator: string)
    ensures Join(words + [word + more], separator) == Join(words + [word], separator) + more
  {
    if words != [] {
      JoinOneMore(words, word, separator);
      JoinOneMore(words, word + more, separator);
    }
  }

  // ---- The normal form ----------------------------------------------------------------------------------------

  predicate SlugCharacter(c: char) { AsciiLower(c) || AsciiDigit(c) || c == '_' }

  /** Lower-case alphanumeric words joined by single underscores. */
  ghost predicate Normal(s: string) {
    && (forall i | 0 <= i < |s| :: SlugCharacter(s[i]))
    && (forall i | 0 <= i < |s| - 1 :: s[i] == '_' ==> s[i + 1] != '_')
    && (s != "" ==> s[0] != '_' && s[|s| - 1] != '_')
  }

  /** The same but for underscores at the ends. */
  ghost predicate NearlyNormal(s: string) {
    && (forall i | 0 <= i < |s| :: SlugCharacter(s[i]))
    && (forall i | 0 <= i < |s| - 1 :: s[i] == '_' ==> s[i + 1] != '_')
  }

  lemma {:induction false} SpreadHasNoCapitals(u: Unicode, value: string, n: nat)
    requires Faithful(u) && n <= |value|
    ensures forall i | 0 <= i < |Spread(u, value, n, '_', u.toLower)| ::
              !AsciiUpper(Spread(u, value, n, '_', u.toLower)[i])
  {
    if n > 0 {
      SpreadHasNoCapitals(u, value, n - 1);
    }
  }

  /** Squeezing leaves single underscores, at the end exactly if the string ended in something else than a letter or a
      digit. */
  lemma {:induction false} SqueezeIsNearlyNormal(s: string)
    requires forall i | 0 <= i < |s| :: !AsciiUpper(s[i])
    ensures NearlyNormal(Squeeze(s))
    ensures s != "" ==> Squeeze(s) != "" && (Squeeze(s)[|Squeeze(s)| - 1] == '_' <==> !AlphaNumeric(s[|s| - 1]))
  {
    if s != "" {
      SqueezeIsNearlyNormal(s[..|s| - 1]);
    }
  }

  lemma {:induction false} TrimIsNormal(s: string)
    requires NearlyNormal(s)
    ensures Normal(Trim(s))
    decreases |s|
  {
    if s != "" {
      if s[0] == '_' {
        TrimIsNormal(s[1..]);
      } else if s[|s| - 1] == '_' {
        TrimIsNormal(s[..|s| - 1]);
      }
    }
  }

  /** Every slug is in normal form. */
  lemma {:induction false} SlugIsNormal(u: Unicode, value: string)
    requires Faithful(u)
    ensures Normal(Slugged(u, value))
  {
    var spread := Spread(u, value, |value|, '_', u.toLower);
    SpreadHasNoCapitals(u, value, |value|);
    SqueezeIsNearlyNormal(spread);
    TrimIsNormal(Squeeze(spread));
  }

  lemma {:induction false} SqueezeKeepsNormal(s: string)
    requires NearlyNormal(s)
    ensures Squeeze(s) == s
  {
    if s != "" {
      SqueezeKeepsNormal(s[..|s| - 1]);
      assert s == s[..|s| - 1] + [s[|s| - 1]];
    }
  }

  lemma {:induction false} SpreadKeepsNormal(u: Unicode, s: string, n: nat)
    requires Faithful(u) && Normal(s) && n <= |s|
    ensures Spread(u, s, n, '_', u.toLower) == s[..n]
  {
    if n > 0 {
      SpreadKeepsNormal(u, s, n - 1);
      assert SlugCharacter(s[n - 1]);
    }
  }

  /** A string is its own slug exactly when it is in normal form. */
  lemma {:induction false} SlugFixesNormal(u: Unicode, s: string)
    requires Faithful(u)
    ensures Slugged(u, s) == s <==> Normal(s)
  {
    if Normal(s) {
      SpreadKeepsNormal(u, s, |s|);
      assert s[..|s|] == s;
      SqueezeKeepsNormal(s);
    } else {
      SlugIsNormal(u, s);
    }
  }

  lemma {:induction false} SlugIsIdempotent(u: Unicode, value: string)
    requires Faithful(u)
    ensures Slugged(u, Slugged(u, value)) == Slugged(u, value)
  {
    SlugIsNormal(u, value);
    SlugFixesNormal(u, Slugged(u, value));
  }

  // ---- The words of a slug --------------------------------------------------------------------------------------

  /** The maximal runs of letters and digits. */
  function Runs(s: string): (runs: seq<string>)
    ensures s != "" && AlphaNumeric(s[|s| - 1]) ==> runs != []
  {
    if s == "" then []
    else
      var last := |s| - 1;
      var runs := Runs(s[..last]);
      if !AlphaNumeric(s[last]) then runs
      else if last > 0 && AlphaNumeric(s[last - 1]) then runs[..|runs| - 1] + [runs[|runs| - 1] + [s[last]]]
      else runs + [[s[last]]]
  }

  function Mark(c: char): string {
    if AlphaNumeric(c) then "" else "_"
  }

  ghost predicate Bare(s: string) {
    s != "" && s[0] != '_' && s[|s| - 1] != '_'
  }

  ghost predicate JoinsRuns(s: string) {
    if Runs(s) == [] then Squeeze(s) == if s == "" then "" else "_"
    else s != "" && Bare(Join(Runs(s), "_")) && Squeeze(s) == Mark(s[0]) + Join(Runs(s), "_") + Mark(s[|s| - 1])
  }

  /** Squeezing joins the runs by underscores, and adds one at either end where the string has something else. */
  lemma {:induction false} SqueezeJoinsRuns(s: string)
    ensures JoinsRuns(s)
  {
    if s != "" {
      SqueezeJoinsRuns(s[..|s| - 1]);
      if AlphaNumeric(s[|s| - 1]) {
        OneMoreAlphaNumeric(s);
      }
    }
  }

  lemma {:induction false} OneMoreAlphaNumeric(s: string)
    requires s != "" && AlphaNumeric(s[|s| - 1]) && JoinsRuns(s[..|s| - 1])
    ensures JoinsRuns(s)
  {
    var n := |s| - 1;
    if Runs(s[..n]) == [] {
      NoRuns(s[..n]);
      assert Runs(s) == [[s[n]]] && Join(Runs(s), "_") == [s[n]];
    } else if AlphaNumeric(s[n - 1]) {
      RunGrows(s);
    } else {
      RunBegins(s);
    }
  }

  lemma {:induction false} RunGrows(s: string)
    requires |s| > 1 && AlphaNumeric(s[|s| - 1]) && AlphaNumeric(s[|s| - 2]) && JoinsRuns(s[..|s| - 1])
    ensures JoinsRuns(s)
  {
    var n := |s| - 1;
    var runs := Runs(s[..n]);
    var m := |runs| - 1;
    assert s[..n][n - 1] == s[n - 1] && s[..n][0] == s[0];
    JoinGrows(runs[..m], runs[m], [s[n]], "_");
    assert runs == runs[..m] + [runs[m]];
    assert Join(Runs(s), "_") == Join(runs, "_") + [s[n]];
  }

  lemma {:induction false} RunBegins(s: string)
    requires |s| > 1 && AlphaNumeric(s[|s| - 1]) && !AlphaNumeric(s[|s| - 2]) && JoinsRuns(s[..|s| - 1])
    requires Runs(s[..|s| - 1]) != []
    ensures JoinsRuns(s)
  {
    var n := |s| - 1;
    var runs := Runs(s[..n]);
    assert s[..n][n - 1] == s[n - 1] && s[..n][0] == s[0];
    JoinOneMore(runs, [s[n]], "_");
    assert Join(Runs(s), "_") == Join(runs, "_") + "_" + [s[n]];
  }

  lemma {:induction false} NoRuns(s: string)
    requires Runs(s) == []
    ensures forall i | 0 <= i < |s| :: !AlphaNumeric(s[i])
  {
    if s != "" {
      NoRuns(s[..|s| - 1]);
    }
  }

  lemma {:induction false} TrimTakesMarks(s: string, front: string, back: string)
    requires Bare(s) && (front == "" || front == "_") && (back == "" || back == "_")
    ensures Trim(front + s + back) == s
  {
    var whole := front + s + back;
    assert Trim(s) == s;
    assert Trim(s + back) == s by {
      assert s + back == s || (s + back)[..|s + back| - 1] == s;
    }
    assert whole == s + back || whole[1..] == s + back;
  }

  /** A slug is the maximal runs of letters and digits of its value, lower-cased and with its words spread, joined by
      single underscores. */
  lemma {:induction false} SlugIsItsRuns(u: Unicode, value: string)
    ensures Slugged(u, value) == Join(Runs(Spread(u, value, |value|, '_', u.toLower)), "_")
  {
    var s := Spread(u, value, |value|, '_', u.toLower);
    SqueezeJoinsRuns(s);
    if Runs(s) != [] {
      TrimTakesMarks(Join(Runs(s), "_"), Mark(s[0]), Mark(s[|s| - 1]));
    }
  }

  // ---- Alphanumeric keys --------------------------------------------------------------------------------------

  ghost predicate IsKey(value: string) {
    forall i | 0 <= i < |value| :: AlphaNumeric(value[i])
  }

  /** Lower-cased, with spaces replaced by underscores. */
  function Underscored(name: string): string {
    seq(|name|, i requires 0 <= i < |name| => if name[i] == ' ' then '_' else AsciiToLower(name[i]))
  }

  function WithoutSpaces(name: string): string {
    if name == "" then ""
    else WithoutSpaces(name[..|name| - 1]) + if name[|name| - 1] == ' ' then "" else [name[|name| - 1]]
  }

  lemma {:induction false} SpreadOfKey(u: Unicode, value: string, n: nat)
    requires Faithful(u) && IsKey(value) && n <= |value|
    ensures Spread(u, value, n, '_', u.toLower) == Underscored(Spread(u, value, n, ' ', Unchanged))
    ensures var s := Spread(u, value, n, '_', u.toLower);
      && NearlyNormal(s) && (n == 0 <==> s == "") && (n > 0 ==> s[0] != '_' && s[|s| - 1] != '_')
  {
    if n > 0 {
      SpreadOfKey(u, value, n - 1);
      assert AlphaNumeric(value[n - 1]);
    }
  }

  /** On an alphanumeric key the slug is the display name, lower-cased, with underscores for spaces. */
  lemma {:induction false} SlugOfKey(u: Unicode, key: string)
    requires Faithful(u) && IsKey(key)
    ensures Slugged(u, key) == Underscored(Friendly(u, key))
  {
    SpreadOfKey(u, key, |key|);
    SqueezeKeepsNormal(Spread(u, key, |key|, '_', u.toLower));
  }

  /** A word of a key begins at a capital after a small letter or a digit, and at the last of several capitals if a
      small letter follows it. */
  ghost predicate BeginsWord(key: string, i: nat)
    requires i < |key|
  {
    && 0 < i && 'A' <= key[i] <= 'Z'
    && (|| 'a' <= key[i - 1] <= 'z' || '0' <= key[i - 1] <= '9'
        || ('A' <= key[i - 1] <= 'Z' && i + 1 < |key| && 'a' <= key[i + 1] <= 'z'))
  }

  /** How many words begin within the first n characters, the first one not counted. */
  ghost function Beginnings(key: string, n: nat): nat
    requires n <= |key|
  {
    if n == 0 then 0 else Beginnings(key, n - 1) + if BeginsWord(key, n - 1) then 1 else 0
  }

  ghost predicate Displayed(key: string, name: string, i: nat)
    requires i < |key|
  {
    var at := i + Beginnings(key, i + 1);
    at < |name| && name[at] == key[i] && (BeginsWord(key, i) <==> at > 0 && name[at - 1] == ' ')
  }

  /** The display name of a key has the characters of the key in order, a space before each that begins a word, and
      nothing else. */
  lemma {:induction false} SpaceBeforeEachWord(u: Unicode, key: string)
    requires Faithful(u) && IsKey(key)
    ensures |Friendly(u, key)| == |key| + Beginnings(key, |key|)
    ensures forall i | 0 <= i < |key| :: Displayed(key, Friendly(u, key), i)
  {
    SpreadDisplays(u, key, |key|);
  }

  lemma {:induction false} SpreadDisplays(u: Unicode, key: string, n: nat)
    requires Faithful(u) && IsKey(key) && n <= |key|
    ensures var name := Spread(u, key, n, ' ', Unchanged);
      && |name| == n + Beginnings(key, n) && (n > 0 ==> name != "" && name[|name| - 1] != ' ')
      && forall i | 0 <= i < n :: Displayed(key, name, i)
  {
    if n > 0 {
      SpreadDisplays(u, key, n - 1);
      var before := Spread(u, key, n - 1, ' ', Unchanged);
      var name := Spread(u, key, n, ' ', Unchanged);
      assert AlphaNumeric(key[n - 1]) && (StartsWord(u, key, n - 1) <==> BeginsWord(key, n - 1));
      assert before <= name;
      forall i | 0 <= i < n ensures Displayed(key, name, i) {
        if i < n - 1 {
          assert Displayed(key, before, i);
        }
      }
    }
  }

  lemma {:induction false} WithoutSpacesOfSum(a: string, b: string)
    ensures WithoutSpaces(a + b) == WithoutSpaces(a) + WithoutSpaces(b)
  {
    if b == "" {
      assert a + b == a;
    } else {
      WithoutSpacesOfSum(a, b[..|b| - 1]);
      assert (a + b)[..|a + b| - 1] == a + b[..|b| - 1];
    }
  }

  lemma {:induction false} SpreadWithoutSpaces(u: Unicode, key: string, n: nat)
    requires IsKey(key) && n <= |key|
    ensures WithoutSpaces(Spread(u, key, n, ' ', Unchanged)) == key[..n]
  {
    if n > 0 {
      SpreadWithoutSpaces(u, key, n - 1);
      OneMoreWithoutSpace(u, key, n);
    }
  }

  lemma {:induction false} OneMoreWithoutSpace(u: Unicode, key: string, n: nat)
    requires 0 < n <= |key| && AlphaNumeric(key[n - 1])
    requires WithoutSpaces(Spread(u, key, n - 1, ' ', Unchanged)) == key[..n - 1]
    ensures WithoutSpaces(Spread(u, key, n, ' ', Unchanged)) == key[..n]
  {
    SpaceVanishes(Spread(u, key, n - 1, ' ', Unchanged), if StartsWord(u, key, n - 1) then " " else "", key[n - 1]);
  }

  lemma {:induction false} SpaceVanishes(before: string, gap: string, c: char)
    requires (gap == " " || gap == "") && c != ' '
    ensures WithoutSpaces(before + gap + [c]) == WithoutSpaces(before) + [c]
  {
    WithoutSpacesOfSum(before + gap, [c]);
    WithoutSpacesOfSum(before, gap);
    assert [c][..0] == "";
    assert " "[..0] == "";
  }

  /** Deleting the spaces of a key's display name gives the key back, so display names tell keys apart. */
  lemma {:induction false} KeyFromFriendlyName(u: Unicode, key: string)
    requires IsKey(key)
    ensures WithoutSpaces(Friendly(u, key)) == key
  {
    SpreadWithoutSpaces(u, key, |key|);
    assert key[..|key|] == key;
  }
}
