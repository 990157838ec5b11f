/** Python's `sep.join` and `split` for a one-character separator, and `strip`. */
module Text {

  function Join(sep: char, parts: seq<string>): string {
    if parts == [] then ""
    else if |parts| == 1 then parts[0]
    else parts[0] + [sep] + Join(sep, parts[1..])
  }

  function Split(sep: char, s: string): (parts: seq<string>)
    ensures parts != []
  {
    if s == "" then [""]
    else
      var rest := Split(sep, s[1..]);
      if s[0] == sep then [""] + rest else [[s[0]] + rest[0]] + rest[1..]
  }

  lemma {:induction false} SplitHead(sep: char, head: string, tail: string)
    requires sep !in head
    ensures Split(sep, head) == [head]
    ensures Split(sep, head + [sep] + tail) == [head] + Split(sep, tail)
  {
    if head == "" {
      assert head + [sep] + tail == [sep] + tail;
    } else {
      SplitHead(sep, head[1..], tail);
      assert (head + [sep] + tail)[1..] == head[1..] + [sep] + tail;
      assert head == [head[0]] + head[1..];
    }
  }

  lemma {:induction false} SplitInvertsJoin(sep: char, parts: seq<string>)
    requires parts != [] && forall p :: p in parts ==> sep !in p
    ensures Split(sep, Join(sep, parts)) == parts
  {
    if |parts| == 1 {
      SplitHead(sep, parts[0], "");
    } else {
      SplitInvertsJoin(sep, parts[1..]);
      SplitHead(sep, parts[0], Join(sep, parts[1..]));
    }
  }

  lemma JoinInjective(sep: char, a: seq<string>, b: seq<string>)
    requires a != [] && b != []
    requires forall p :: p in a ==> sep !in p
    requires forall p :: p in b ==> sep !in p
    requires Join(sep, a) == Join(sep, b)
    ensures a == b
  {
    SplitInvertsJoin(sep, a);
    SplitInvertsJoin(sep, b);
  }

  // ---------------------------------------------------------------------

  /** The code points that Python counts as white space. */
  predicate IsSpace(c: char) {
    var n := c as int;
    || n == 0x20 || 0x9 <= n <= 0xD || 0x1C <= n <= 0x1F || n == 0x85 || n == 0xA0 || n == 0x1680
    || 0x2000 <= n <= 0x200A || n == 0x2028 || n == 0x2029 || n == 0x202F || n == 0x205F || n == 0x3000
  }

  function StripLeft(s: string): string {
    if s != "" && IsSpace(s[0]) then StripLeft(s[1..]) else s
  }

  function StripRight(s: string): string {
    if s != "" && IsSpace(s[|s| - 1]) then StripRight(s[..|s| - 1]) else s
  }

  function Strip(s: string): string {
    StripRight(StripLeft(s))
  }

  /** A text that `strip` leaves alone. */
  predicate Trimmed(s: string) {
    s != "" ==> !IsSpace(s[0]) && !IsSpace(s[|s| - 1])
  }

  lemma StripTrimmed(s: string)
    requires Trimmed(s)
    ensures Strip(s) == s
  {
  }

  lemma {:induction false} JoinTrimmed(sep: char, parts: seq<string>)
    requires !IsSpace(sep) && parts != []
    requires forall p :: p in parts ==> p != "" && Trimmed(p)
    ensures Join(sep, parts) != "" && Trimmed(Join(sep, parts))
  {
    if |parts| > 1 {
      forall p | p in parts[1..] ensures p in parts {}
      JoinTrimmed(sep, parts[1..]);
      assert parts[0] in parts;
      var rest := Join(sep, parts[1..]);
      assert Join(sep, parts) == parts[0] + [sep] + rest;
    } else {
      assert parts[0] in parts;
    }
  }
}
