/** Splitting text at a separator, and joining it again. */
module Text {

  predicate Free(separator: char, s: string) {
    separator !in s
  }

  function Split(separator: char, text: string): (r: seq<string>)
    ensures r != [] && forall part | part in r :: Free(separator, part)
  {
    if text == "" then [""]
    else
      var r := Split(separator, text[1..]);
      assert r[0] in r && forall part | part in r[1..] :: part in r;
      if text[0] == separator then [""] + r else [[text[0]] + r[0]] + r[1..]
  }

  function Join(separator: char, parts: seq<string>): string
    requires parts != []
  {
    if |parts| == 1 then parts[0] else parts[0] + [separator] + Join(separator, parts[1..])
  }

  lemma {:induction false} SplitFirst(separator: char, part: string, rest: string)
    requires Free(separator, part)
    ensures Split(separator, part + [separator] + rest) == [part] + Split(separator, rest)
    ensures Split(separator, part) == [part]
  {
    var text := part + [separator] + rest;
    if part == "" {
      assert text[1..] == rest;
    } else {
      SplitFirst(separator, part[1..], rest);
      assert text[1..] == part[1..] + [separator] + rest;
      assert part == [part[0]] + part[1..];
    }
  }

  lemma {:induction false} SplitJoin(separator: char, parts: seq<string>)
    requires parts != [] && forall part | part in parts :: Free(separator, part)
    ensures Split(separator, Join(separator, parts)) == parts
  {
    if |parts| == 1 {
      SplitFirst(separator, parts[0], "");
    } else {
      SplitFirst(separator, parts[0], Join(separator, parts[1..]));
      SplitJoin(separator, parts[1..]);
    }
  }

  lemma {:induction false} JoinSplit(separator: char, text: string)
    ensures Join(separator, Split(separator, text)) == text
  {
    if text != "" {
      var r := Split(separator, text[1..]);
      JoinSplit(separator, text[1..]);
      if text[0] == separator {
        assert ([""] + r)[1..] == r;
      } else if |r| > 1 {
        assert ([[text[0]] + r[0]] + r[1..])[1..] == r[1..];
      }
    }
  }
}
