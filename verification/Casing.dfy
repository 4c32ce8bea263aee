/** The name parser and its two printers of databricks/sdk/casing.py, for ASCII names. */
module Casing {
  predicate IsUpper(c: char) {
    'A' <= c <= 'Z'
  }

  predicate IsLower(c: char) {
    'a' <= c <= 'z'
  }

  function Lower(c: char): char {
    if IsUpper(c) then c - 'A' + 'a' else c
  }

  function Upper(c: char): char {
    if IsLower(c) then c - 'a' + 'A' else c
  }

  // ---------- Segments ----------

  /** The number of lower-case letters that s starts with. */
  function Run(s: string): (n: nat)
    ensures n <= |s|
  {
    if s != [] && IsLower(s[0]) then 1 + Run(s[1..]) else 0
  }

  /** The segments of a name: each is a letter with all the lower-case letters right after it, in lower
      case; every other character only separates. */
  function Segments(s: string): (segments: seq<string>)
    decreases |s|
  {
    if s == [] then []
    else if IsUpper(s[0]) || IsLower(s[0]) then
      var n := Run(s[1..]);
      [[Lower(s[0])] + s[1..][..n]] + Segments(s[1..][n..])
    else Segments(s[1..])
  }

  /** The segments of a name of which `segment` has been read already. */
  ghost function Resume(segment: string, rest: string): seq<string> {
    if segment == [] then Segments(rest)
    else [segment + rest[..Run(rest)]] + Segments(rest[Run(rest)..])
  }

  lemma ResumeStep(segment: string, rest: string)
    requires rest != []
    ensures var c, later := rest[0], rest[1..];
            Resume(segment, rest)
            == if IsUpper(c) then Flush(segment) + Resume([Lower(c)], later)
               else if IsLower(c) then Resume(segment + [c], later)
               else Flush(segment) + Resume([], later)
  {
    var c, later := rest[0], rest[1..];
    if IsLower(c) {
      assert segment == [] ==> segment + [c] == [c];
      assert rest[..Run(rest)] == [c] + later[..Run(later)];
      assert rest[Run(rest)..] == later[Run(later)..];
      assert segment + ([c] + later[..Run(later)]) == (segment + [c]) + later[..Run(later)];
    } else {
      assert rest[..0] == [] && rest[0..] == rest && segment + [] == segment;
    }
  }

  function Flush(segment: string): seq<string> {
    if segment == [] then [] else [segment]
  }

  lemma Start(s: string)
    ensures Resume([], s) == Segments(s)
  {
  }

  lemma ResumeAtEnd(segment: string)
    ensures Resume(segment, []) == Flush(segment)
  {
    assert segment + [] == segment;
  }

  class Name {
    var segments: seq<string>

    constructor (rawName: string)
      ensures segments == Segments(rawName)
      ensures ToSnakeCase() == SnakeCase(rawName) && ToHeaderCase() == HeaderCase(rawName)
    {
      hide Resume, Segments, Lower, IsUpper, IsLower;
      var found: seq<string> := [];
      var segment: string := [];
      Start(rawName);
      assert rawName[0..] == rawName;
      for i := 0 to |rawName|
        invariant found + Resume(segment, rawName[i..]) == Segments(rawName)
      {
        var ch := rawName[i];
        assert rawName[i..][0] == ch && rawName[i..][1..] == rawName[i + 1..];
        ResumeStep(segment, rawName[i..]);
        if IsUpper(ch) {
          if segment != [] {
            found := found + [segment];
          }
          segment := [Lower(ch)];
        } else if IsLower(ch) {
          segment := segment + [ch];
        } else {
          if segment != [] {
            found := found + [segment];
          }
          segment := [];
        }
      }
      assert rawName[|rawName|..] == [];
      ResumeAtEnd(segment);
      if segment != [] {
        found := found + [segment];
      }
      segments := found;
    }

    function ToSnakeCase(): string
      reads this
    {
      Join("_", segments)
    }

    function ToHeaderCase(): string
      reads this
    {
      Join("-", Capitalized(segments))
    }
  }

  function Join(separator: string, segments: seq<string>): string {
    if segments == [] then []
    else if |segments| == 1 then segments[0]
    else segments[0] + separator + Join(separator, segments[1..])
  }

  /** Segments are in lower case, so capitalizing one is capitalizing its first letter. */
  function Capitalize(segment: string): string {
    if segment == [] then [] else [Upper(segment[0])] + AllLower(segment[1..])
  }

  function AllLower(s: string): (r: string)
    ensures |r| == |s| && forall i :: 0 <= i < |s| ==> r[i] == Lower(s[i])
  {
    seq(|s|, i requires 0 <= i < |s| => Lower(s[i]))
  }

  function Capitalized(segments: seq<string>): (r: seq<string>)
    ensures |r| == |segments| && forall i :: 0 <= i < |segments| ==> r[i] == Capitalize(segments[i])
  {
    seq(|segments|, i requires 0 <= i < |segments| => Capitalize(segments[i]))
  }

  function SnakeCase(name: string): string {
    Join("_", Segments(name))
  }

  function HeaderCase(name: string): string {
    Join("-", Capitalized(Segments(name)))
  }

  method ToHeaderCase(name: string) returns (header: string)
    ensures header == HeaderCase(name)
  {
    var parsed := new Name(name);
    header := parsed.ToHeaderCase();
  }

  // ---------- Reading back ----------

  predicate IsWord(s: string) {
    s != [] && forall i :: 0 <= i < |s| ==> IsLower(s[i])
  }

  lemma {:induction false} RunIsLower(s: string)
    ensures forall i :: 0 <= i < Run(s) ==> IsLower(s[i])
    ensures Run(s) < |s| ==> !IsLower(s[Run(s)])
  {
    if s != [] && IsLower(s[0]) {
      RunIsLower(s[1..]);
      assert forall i :: 0 < i < Run(s) ==> s[i] == s[1..][i - 1];
    }
  }

  /** Segments are never empty and in lower case. */
  lemma {:induction false} SegmentsAreWords(s: string)
    ensures forall i :: 0 <= i < |Segments(s)| ==> IsWord(Segments(s)[i])
    decreases |s|
  {
    if s == [] {
    } else if IsUpper(s[0]) || IsLower(s[0]) {
      var n := Run(s[1..]);
      RunIsLower(s[1..]);
      SegmentsAreWords(s[1..][n..]);
    } else {
      SegmentsAreWords(s[1..]);
    }
  }

  /** A word with what follows it, which is no lower-case letter: the word is the first segment. */
  lemma WordComesFirst(first: char, word: string, rest: string)
    requires IsWord(word) && (first == word[0] || first == Upper(word[0]))
    requires rest == [] || !IsLower(rest[0])
    ensures Segments([first] + word[1..] + rest) == [word] + Segments(rest)
  {
    var s := [first] + word[1..] + rest;
    assert s[1..] == word[1..] + rest;
    RunOfWord(word[1..], rest);
    assert s[1..][..|word| - 1] == word[1..] && s[1..][|word| - 1..] == rest;
    assert [Lower(first)] + word[1..] == word;
  }

  lemma {:induction false} RunOfWord(letters: string, rest: string)
    requires forall i :: 0 <= i < |letters| ==> IsLower(letters[i])
    requires rest == [] || !IsLower(rest[0])
    ensures Run(letters + rest) == |letters|
  {
    if letters != [] {
      assert (letters + rest)[1..] == letters[1..] + rest;
      RunOfWord(letters[1..], rest);
    } else {
      assert letters + rest == rest;
    }
  }

  /** The printed forms of a word are read alike. */
  predicate Prints(text: string, word: string) {
    IsWord(word) && |text| == |word| && text[1..] == word[1..] && (text[0] == word[0] || text[0] == Upper(word[0]))
  }

  /** Words joined by a separating character, each with or without a capital, are read back. */
  lemma {:induction false} JoinedWordsAreRead(separator: char, texts: seq<string>, words: seq<string>)
    requires !IsLower(separator) && !IsUpper(separator)
    requires |texts| == |words| && forall i :: 0 <= i < |texts| ==> Prints(texts[i], words[i])
    ensures Segments(Join([separator], texts)) == words
  {
    if texts != [] {
      var text, word := texts[0], words[0];
      var rest := if |texts| == 1 then [] else [separator] + Join([separator], texts[1..]);
      assert Join([separator], texts) == [text[0]] + word[1..] + rest;
      WordComesFirst(text[0], word, rest);
      if |texts| > 1 {
        JoinedWordsAreRead(separator, texts[1..], words[1..]);
        assert rest[1..] == Join([separator], texts[1..]);
      }
    }
  }

  /** Both printed forms of a name have the segments of the name. */
  lemma PrintedFormsAreRead(name: string)
    ensures Segments(SnakeCase(name)) == Segments(name)
    ensures Segments(HeaderCase(name)) == Segments(name)
  {
    var words := Segments(name);
    SegmentsAreWords(name);
    JoinedWordsAreRead('_', words, words);
    forall i | 0 <= i < |words|
      ensures Prints(Capitalized(words)[i], words[i])
    {
      assert Capitalize(words[i])[1..] == AllLower(words[i][1..]) == words[i][1..];
    }
    JoinedWordsAreRead('-', Capitalized(words), words);
  }

  /** Printing twice is printing once, and each form can be made from the other. */
  lemma PrintersAreIdempotent(name: string)
    ensures SnakeCase(SnakeCase(name)) == SnakeCase(name) == SnakeCase(HeaderCase(name))
    ensures HeaderCase(HeaderCase(name)) == HeaderCase(name) == HeaderCase(SnakeCase(name))
  {
    PrintedFormsAreRead(name);
  }

  /** Names print alike, in either form, exactly if they have the same segments. */
  lemma PrintersTellSegmentsApart(a: string, b: string)
    ensures SnakeCase(a) == SnakeCase(b) <==> Segments(a) == Segments(b)
    ensures HeaderCase(a) == HeaderCase(b) <==> Segments(a) == Segments(b)
  {
    PrintedFormsAreRead(a);
    PrintedFormsAreRead(b);
  }

  // ---------- What the printed forms look like ----------

  /** A segment begins with a letter and goes on as long as there are small letters; other characters are
      passed over. */
  lemma SegmentsLaw(s: string) returns (n: nat)
    ensures n <= |s|
    ensures s == [] ==> Segments(s) == []
    ensures s != [] && !('A' <= s[0] <= 'Z') && !('a' <= s[0] <= 'z') ==> Segments(s) == Segments(s[1..])
    ensures s != [] && ('A' <= s[0] <= 'Z' || 'a' <= s[0] <= 'z') ==>
              && n >= 1 && (forall i :: 1 <= i < n ==> 'a' <= s[i] <= 'z')
              && (n < |s| ==> !('a' <= s[n] <= 'z'))
              && var small := (if s[0] <= 'Z' then s[0] as int + 32 else s[0] as int) as char;
              && Segments(s) == [[small] + s[1..n]] + Segments(s[n..])
  {
    n := 0;
    if s != [] {
      var run := Run(s[1..]);
      RunIsLower(s[1..]);
      n := 1 + run;
      assert s[1..][..run] == s[1..n] && s[1..][run..] == s[n..];
      assert forall i :: 1 <= i < |s| ==> s[i] == s[1..][i - 1];
    }
  }

  /** The parts of a text between the separators. */
  function Split(text: string, separator: char): (parts: seq<string>)
    ensures parts != []
  {
    if text == [] then [""]
    else
      var parts := Split(text[1..], separator);
      if text[0] == separator then [""] + parts else [[text[0]] + parts[0]] + parts[1..]
  }

  /** A segment with its first letter, and no other, as a capital. */
  ghost predicate IsCapitalized(part: string, word: string) {
    && |part| == |word| > 0 && part[1..] == word[1..]
    && 'A' <= part[0] <= 'Z' && part[0] as int - 'A' as int == word[0] as int - 'a' as int
  }

  lemma {:induction false} SplitJoined(separator: char, parts: seq<string>)
    requires parts != [] && forall i :: 0 <= i < |parts| ==> separator !in parts[i]
    ensures Split(Join([separator], parts), separator) == parts
  {
    if |parts| == 1 {
      SplitFirst(separator, parts[0], "");
      assert parts[0] + "" == parts[0] && parts == [parts[0]];
    } else {
      var rest := Join([separator], parts[1..]);
      var tail := [separator] + rest;
      assert Join([separator], parts) == parts[0] + [separator] + rest == parts[0] + tail;
      assert tail[1..] == rest;
      assert Split(tail, separator) == [""] + Split(rest, separator);
      hide Split, Join;
      SplitJoined(separator, parts[1..]);
      SplitFirst(separator, parts[0], tail);
      assert parts[0] + "" == parts[0] && parts == [parts[0]] + parts[1..];
      assert ([""] + parts[1..])[1..] == parts[1..];
    }
  }

  lemma {:induction false} SplitFirst(separator: char, part: string, rest: string)
    requires separator !in part
    ensures Split(part + rest, separator) == [part + Split(rest, separator)[0]] + Split(rest, separator)[1..]
  {
    var later := Split(rest, separator);
    if part == [] {
      assert part + rest == rest && part + later[0] == later[0];
    } else {
      assert (part + rest)[0] == part[0] && (part + rest)[1..] == part[1..] + rest;
      SplitFirst(separator, part[1..], rest);
      var parts := [part[1..] + later[0]] + later[1..];
      assert Split(part + rest, separator) == [[part[0]] + parts[0]] + parts[1..];
      assert [part[0]] + (part[1..] + later[0]) == part + later[0];
      assert parts[1..] == later[1..];
    }
  }

  lemma CapitalizedWord(word: string)
    requires IsWord(word)
    ensures IsCapitalized(Capitalize(word), word) && '-' !in Capitalize(word) && '_' !in word
  {
    assert Capitalize(word)[1..] == AllLower(word[1..]) == word[1..];
  }

  /** The snake form is the segments between underscores, and the header form the capitalized segments between
      dashes. */
  lemma PrintedFormsAreSegments(name: string)
    requires Segments(name) != []
    ensures Split(SnakeCase(name), '_') == Segments(name)
    ensures var parts := Split(HeaderCase(name), '-');
            |parts| == |Segments(name)| && forall i :: 0 <= i < |parts| ==> IsCapitalized(parts[i], Segments(name)[i])
  {
    hide Segments, Split, Join, IsWord, IsCapitalized, Capitalize;
    var words := Segments(name);
    SegmentsAreWords(name);
    forall i | 0 <= i < |words|
      ensures IsCapitalized(Capitalized(words)[i], words[i]) && '-' !in Capitalized(words)[i] && '_' !in words[i]
    {
      CapitalizedWord(words[i]);
    }
    SplitJoined('_', words);
    SplitJoined('-', Capitalized(words));
  }

  lemma NothingIsPrinted(name: string)
    requires Segments(name) == []
    ensures SnakeCase(name) == "" && HeaderCase(name) == ""
  {
  }

  // ---------- No letter is lost ----------

  function Letters(s: string): string {
    if s == [] then []
    else if IsUpper(s[0]) || IsLower(s[0]) then [Lower(s[0])] + Letters(s[1..])
    else Letters(s[1..])
  }

  lemma {:induction false} LettersOfRun(s: string)
    ensures Letters(s) == s[..Run(s)] + Letters(s[Run(s)..])
  {
    if s != [] && IsLower(s[0]) {
      LettersOfRun(s[1..]);
      assert s[..Run(s)] == [s[0]] + s[1..][..Run(s[1..])];
      assert s[Run(s)..] == s[1..][Run(s[1..])..];
    } else {
      assert s[0..] == s;
    }
  }

  lemma JoinCons(head: string, tail: seq<string>)
    ensures Join("", [head] + tail) == head + Join("", tail)
  {
    assert ([head] + tail)[1..] == tail;
    if tail == [] {
      assert head + Join("", tail) == head;
    } else {
      assert head + "" == head;
    }
  }

  /** The segments together are all the letters of the name, in order. */
  lemma {:induction false} SegmentsKeepLetters(s: string)
    ensures Join("", Segments(s)) == Letters(s)
    decreases |s|
  {
    if s == [] {
    } else if IsUpper(s[0]) || IsLower(s[0]) {
      var n := Run(s[1..]);
      var rest := s[1..][n..];
      var first := [Lower(s[0])] + s[1..][..n];
      assert Segments(s) == [first] + Segments(rest);
      assert Letters(s) == first + Letters(rest) by {
        LettersOfRun(s[1..]);
      }
      hide Segments, Letters, Run, Join;
      SegmentsKeepLetters(rest);
      JoinCons(first, Segments(rest));
    } else {
      SegmentsKeepLetters(s[1..]);
    }
  }
}
