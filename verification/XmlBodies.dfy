/**
  The flat form of XML bodies in internal/triage/triage.go, on the tokens of a document.

  parseXMLToMap reads a document into a map from dotted paths to texts, mapToXMLBytes
  writes such a map as one chain of elements per key.  The tokens stand for what the
  XML library reads and writes, with texts unescaped.
 */
module XmlBodies {
  import opened Options
  import opened EndpointPaths
  import opened SortedStrings

  datatype Token = StartElement(name: string) | EndElement(name: string) | CharData(text: string) | ProcInst

  // ---- strings.TrimSpace, for any notion of space ----

  function TrimLeft(isSpace: char -> bool, s: string): string {
    if s != "" && isSpace(s[0]) then TrimLeft(isSpace, s[1..]) else s
  }

  function TrimRight(isSpace: char -> bool, s: string): string {
    if s != "" && isSpace(s[|s| - 1]) then TrimRight(isSpace, s[..|s| - 1]) else s
  }

  function TrimSpace(isSpace: char -> bool, s: string): string {
    TrimRight(isSpace, TrimLeft(isSpace, s))
  }

  predicate AllSpace(isSpace: char -> bool, s: string) {
    forall c :: c in s ==> isSpace(c)
  }

  /** What is between the spaces at both ends. */
  predicate IsTrimmed(isSpace: char -> bool, s: string) {
    s != "" ==> !isSpace(s[0]) && !isSpace(s[|s| - 1])
  }

  lemma {:induction false} TrimLeftOf(isSpace: char -> bool, s: string) returns (front: string)
    ensures s == front + TrimLeft(isSpace, s) && AllSpace(isSpace, front)
    ensures TrimLeft(isSpace, s) != "" ==> !isSpace(TrimLeft(isSpace, s)[0])
  {
    front := "";
    if s != "" && isSpace(s[0]) {
      front := TrimLeftOf(isSpace, s[1..]);
      front := [s[0]] + front;
    }
  }

  lemma {:induction false} TrimRightOf(isSpace: char -> bool, s: string) returns (back: string)
    ensures s == TrimRight(isSpace, s) + back && AllSpace(isSpace, back)
    ensures TrimRight(isSpace, s) != "" ==> !isSpace(TrimRight(isSpace, s)[|TrimRight(isSpace, s)| - 1])
  {
    back := "";
    if s != "" && isSpace(s[|s| - 1]) {
      back := TrimRightOf(isSpace, s[..|s| - 1]);
      back := back + [s[|s| - 1]];
    }
  }

  /** Trimming takes away exactly the spaces at both ends. */
  lemma TrimTheorem(isSpace: char -> bool, s: string) returns (front: string, back: string)
    ensures s == front + TrimSpace(isSpace, s) + back && AllSpace(isSpace, front) && AllSpace(isSpace, back)
    ensures IsTrimmed(isSpace, TrimSpace(isSpace, s))
  {
    front := TrimLeftOf(isSpace, s);
    back := TrimRightOf(isSpace, TrimLeft(isSpace, s));
    if TrimSpace(isSpace, s) != "" {
      assert TrimSpace(isSpace, s)[0] == TrimLeft(isSpace, s)[0];
    }
  }

  // ---- Reading ----

  type Flat = map<string, string>

  /** The open elements, and what was read so far. */
  datatype Reader = Reader(path: seq<string>, flat: Flat)

  function ReadToken(isSpace: char -> bool, r: Reader, token: Token): Reader {
    match token
    case StartElement(name) => r.(path := r.path + [name])
    case EndElement(_) => if r.path != [] then r.(path := r.path[..|r.path| - 1]) else r
    case CharData(text) =>
      var trimmed := TrimSpace(isSpace, text);
      if trimmed != "" && r.path != [] then r.(flat := r.flat[Join(r.path, '.') := trimmed]) else r
    case ProcInst => r
  }

  function Read(isSpace: char -> bool, r: Reader, tokens: seq<Token>): Reader {
    if tokens == [] then r
    else ReadToken(isSpace, Read(isSpace, r, tokens[..|tokens| - 1]), tokens[|tokens| - 1])
  }

  method ParseXMLToMap(isSpace: char -> bool, tokens: seq<Token>) returns (flat: Flat)
    ensures flat == Read(isSpace, Reader([], map[]), tokens).flat
  {
    flat := map[];
    var path: seq<string> := [];
    for i := 0 to |tokens|
      invariant Reader(path, flat) == Read(isSpace, Reader([], map[]), tokens[..i])
    {
      assert tokens[..i + 1][..i] == tokens[..i];
      match tokens[i] {
        case StartElement(name) => path := path + [name];
        case EndElement(_) =>
          if |path| > 0 {
            path := path[..|path| - 1];
          }
        case CharData(data) =>
          var text := TrimSpace(isSpace, data);
          if text != "" && |path| > 0 {
            flat := flat[Join(path, '.') := text];
          }
        case ProcInst =>
      }
    }
    assert tokens[..|tokens|] == tokens;
  }

  lemma {:induction false} ReadConcat(isSpace: char -> bool, r: Reader, a: seq<Token>, b: seq<Token>)
    ensures Read(isSpace, r, a + b) == Read(isSpace, Read(isSpace, r, a), b)
  {
    if b == [] {
      assert a + b == a;
    } else {
      ReadConcat(isSpace, r, a, b[..|b| - 1]);
      assert (a + b)[..|a + b| - 1] == a + b[..|b| - 1];
    }
  }

  /** A text that is not blank becomes the value of the open elements, whatever they had before. */
  lemma LastTextCounts(isSpace: char -> bool, r: Reader, tokens: seq<Token>, text: string)
    requires Read(isSpace, r, tokens).path != [] && TrimSpace(isSpace, text) != ""
    ensures var key, flat := Join(Read(isSpace, r, tokens).path, '.'), Read(isSpace, r, tokens + [CharData(text)]).flat;
      key in flat && flat[key] == TrimSpace(isSpace, text)
  {
    ReadSnoc(isSpace, r, tokens, CharData(text));
  }

  /** An end tag closes the innermost element that is open. */
  lemma EndCloses(isSpace: char -> bool, r: Reader, tokens: seq<Token>, name: string)
    requires Read(isSpace, r, tokens).path != []
    ensures var path := Read(isSpace, r, tokens).path;
      Read(isSpace, r, tokens + [EndElement(name)]).path == path[..|path| - 1]
  {
    ReadSnoc(isSpace, r, tokens, EndElement(name));
  }

  // ---- Writing ----

  function Starts(parts: seq<string>): seq<Token> {
    if parts == [] then [] else Starts(parts[..|parts| - 1]) + [StartElement(parts[|parts| - 1])]
  }

  /** The end tags, innermost first. */
  function Ends(parts: seq<string>): seq<Token> {
    if parts == [] then [] else [EndElement(parts[|parts| - 1])] + Ends(parts[..|parts| - 1])
  }

  function Chain(key: string, text: string): seq<Token> {
    var parts := Split(key, '.');
    Starts(parts) + [CharData(text)] + Ends(parts)
  }

  lemma ReadSnoc(isSpace: char -> bool, r: Reader, tokens: seq<Token>, token: Token)
    ensures Read(isSpace, r, tokens + [token]) == ReadToken(isSpace, Read(isSpace, r, tokens), token)
  {
    assert (tokens + [token])[..|tokens|] == tokens;
  }

  lemma {:induction false} ReadStarts(isSpace: char -> bool, r: Reader, parts: seq<string>)
    ensures Read(isSpace, r, Starts(parts)) == r.(path := r.path + parts)
  {
    if parts == [] {
      assert r.path + parts == r.path;
    } else {
      var n := |parts| - 1;
      ReadStarts(isSpace, r, parts[..n]);
      ReadSnoc(isSpace, r, Starts(parts[..n]), StartElement(parts[n]));
      assert r.path + parts == r.path + parts[..n] + [parts[n]];
    }
  }

  lemma {:induction false} ReadEnds(isSpace: char -> bool, r: Reader, path: seq<string>, parts: seq<string>)
    requires r.path == path + parts
    ensures Read(isSpace, r, Ends(parts)) == r.(path := path)
    decreases |parts|
  {
    if parts == [] {
      assert path + parts == path;
    } else {
      var n := |parts| - 1;
      var last := [EndElement(parts[n])];
      var popped := r.(path := path + parts[..n]);
      assert r.path[..|r.path| - 1] == path + parts[..n];
      assert last[..0] == [];
      assert Read(isSpace, r, last) == popped;
      ReadEnds(isSpace, popped, path, parts[..n]);
      ReadConcat(isSpace, r, last, Ends(parts[..n]));
    }
  }

  /** The entry of a key, as it is read back. */
  function Entered(isSpace: char -> bool, flat: Flat, key: string, text: string): Flat {
    var trimmed := TrimSpace(isSpace, text);
    if trimmed != "" then flat[key := trimmed] else flat
  }

  /** Reading the chain of a key enters this key, also if it continues another one. */
  lemma ReadChain(isSpace: char -> bool, flat: Flat, key: string, text: string)
    ensures Read(isSpace, Reader([], flat), Chain(key, text)) == Reader([], Entered(isSpace, flat, key, text))
  {
    var parts := Split(key, '.');
    JoinSplit(key, '.');
    var start, data := Reader([], flat), [CharData(text)];
    var inside := Reader(parts, flat);
    ReadStarts(isSpace, start, parts);
    assert [] + parts == parts;
    assert data[..0] == [];
    var read := Reader(parts, Entered(isSpace, flat, key, text));
    assert Read(isSpace, inside, data) == read;
    ReadConcat(isSpace, start, Starts(parts), data);
    ReadEnds(isSpace, read, [], parts);
    ReadConcat(isSpace, start, Starts(parts) + data, Ends(parts));
  }

  /** What is left of a flat map when it is written and read back. */
  function ReadBack(isSpace: char -> bool, flat: Flat): Flat {
    map key | key in flat && TrimSpace(isSpace, flat[key]) != "" :: TrimSpace(isSpace, flat[key])
  }

  /** The chains of some keys, one after the other. */
  function Chains(flat: Flat, keys: seq<string>): seq<Token>
    requires forall key | key in keys :: key in flat
  {
    if keys == [] then []
    else
      var n := |keys| - 1;
      assert keys == keys[..n] + [keys[n]];
      Chains(flat, keys[..n]) + Chain(keys[n], flat[keys[n]])
  }

  /** The entries among some keys. */
  function Among(flat: Flat, keys: seq<string>): Flat {
    map key | key in flat && key in keys :: flat[key]
  }

  lemma AmongOneMore(isSpace: char -> bool, flat: Flat, keys: seq<string>, key: string)
    requires key in flat
    ensures Among(ReadBack(isSpace, flat), keys + [key]) ==
      Entered(isSpace, Among(ReadBack(isSpace, flat), keys), key, flat[key])
  {
    var whole := ReadBack(isSpace, flat);
    forall k ensures k in Among(whole, keys + [key]) <==> k in Entered(isSpace, Among(whole, keys), key, flat[key]) {
      assert k in keys + [key] <==> k in keys || k == key;
    }
  }

  lemma {:induction false} ReadChains(isSpace: char -> bool, flat: Flat, keys: seq<string>)
    requires forall key | key in keys :: key in flat
    ensures Read(isSpace, Reader([], map[]), Chains(flat, keys)) == Reader([], Among(ReadBack(isSpace, flat), keys))
  {
    if keys == [] {
      assert Among(ReadBack(isSpace, flat), []) == map[];
    } else {
      var n := |keys| - 1;
      var before, key := keys[..n], keys[n];
      assert keys == before + [key];
      ReadChains(isSpace, flat, before);
      AmongOneMore(isSpace, flat, before, key);
      ReadConcat(isSpace, Reader([], map[]), Chains(flat, before), Chain(key, flat[key]));
      ReadChain(isSpace, Among(ReadBack(isSpace, flat), before), key, flat[key]);
    }
  }

  lemma ReadDocument(isSpace: char -> bool, flat: Flat, keys: seq<string>)
    requires forall key :: key in keys <==> key in flat
    ensures Read(isSpace, Reader([], map[]), [ProcInst] + Chains(flat, keys)) == Reader([], ReadBack(isSpace, flat))
  {
    var start := Reader([], map[]);
    assert [ProcInst][..0] == [];
    assert Read(isSpace, start, [ProcInst]) == start;
    ReadConcat(isSpace, start, [ProcInst], Chains(flat, keys));
    ReadChains(isSpace, flat, keys);
    assert Among(ReadBack(isSpace, flat), keys) == ReadBack(isSpace, flat);
  }

  /** The elements of the keys, in the order of the keys. */
  ghost predicate InKeyOrder(flat: Flat, tokens: seq<Token>) {
    exists keys :: Increasing(keys) && (forall key :: key in keys <==> key in flat)
      && tokens == [ProcInst] + Chains(flat, keys)
  }

  /** Writes a flat map, key by key; nothing is written for the empty map. */
  method MapToXML(flat: Flat, ghost isSpace: char -> bool) returns (document: Option<seq<Token>>)
    ensures document == None <==> flat == map[]
    ensures document.Some? ==> Read(isSpace, Reader([], map[]), document.value) == Reader([], ReadBack(isSpace, flat))
    ensures document.Some? ==> InKeyOrder(flat, document.value)
  {
    if |flat| == 0 {
      return None;
    }
    var keys := SortedKeys(flat.Keys);
    var tokens := WriteChains(flat, keys);
    ReadDocument(isSpace, flat, keys);
    document := Some(tokens);
  }

  method WriteChains(flat: Flat, keys: seq<string>) returns (tokens: seq<Token>)
    requires forall key :: key in keys ==> key in flat
    ensures tokens == [ProcInst] + Chains(flat, keys)
  {
    tokens := [ProcInst];
    for i := 0 to |keys|
      invariant tokens == [ProcInst] + Chains(flat, keys[..i])
    {
      var key, n := keys[i], i + 1;
      assert keys[..n][..i] == keys[..i];
      var chain := WriteChain(key, flat[key]);
      tokens := tokens + chain;
      assert tokens == [ProcInst] + (Chains(flat, keys[..i]) + chain);
    }
    assert keys[..|keys|] == keys;
  }

  method WriteChain(key: string, text: string) returns (tokens: seq<Token>)
    ensures tokens == Chain(key, text)
  {
    var parts := Split(key, '.');
    tokens := [];
    for i := 0 to |parts|
      invariant tokens == Starts(parts[..i])
    {
      assert parts[..i + 1][..i] == parts[..i];
      tokens := tokens + [StartElement(parts[i])];
    }
    assert parts[..|parts|] == parts;
    tokens := tokens + [CharData(text)];
    var i := |parts|;
    while i > 0
      invariant 0 <= i <= |parts| && tokens + Ends(parts[..i]) == Chain(key, text)
    {
      i := i - 1;
      assert parts[..i + 1][..i] == parts[..i];
      assert tokens + Ends(parts[..i + 1]) == tokens + [EndElement(parts[i])] + Ends(parts[..i]);
      tokens := tokens + [EndElement(parts[i])];
    }
    assert tokens + [] == tokens;
  }

  /** Writing and reading back gives the map again if and only if its texts are trimmed and not empty. */
  lemma ReadBackTheorem(isSpace: char -> bool, flat: Flat)
    ensures ReadBack(isSpace, flat) == flat
      <==> forall key | key in flat :: flat[key] != "" && TrimSpace(isSpace, flat[key]) == flat[key]
  {
    if ReadBack(isSpace, flat) == flat {
      forall key | key in flat ensures flat[key] != "" && TrimSpace(isSpace, flat[key]) == flat[key] {
        assert key in ReadBack(isSpace, flat);
      }
    }
  }
}
