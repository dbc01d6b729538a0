/**
 * The image cache (src/imageCache.ts): images stored under the string form
 * of a hash, made on first use and returned from the store afterwards.
 */
module ImageCache {
  import opened JsBuiltins

  /** A cache key as the game passes it: a string, a number or an array of keys. */
  datatype Hash = Str(s: string) | Num(n: int) | Arr(items: seq<Hash>)

  /**
   * String(hash): a string is itself, a number its decimal form, and an
   * array the string forms of its items joined with commas, so nested
   * arrays flatten.
   */
  function Key(hash: Hash): string
    decreases hash
  {
    match hash
    case Str(s) => s
    case Num(n) => IntToString(n)
    case Arr(items) => Join(seq(|items|, i requires 0 <= i < |items| => Key(items[i])), ",")
  }

  function Keys(items: seq<Hash>): (keys: seq<string>)
    ensures |keys| == |items| && forall i :: 0 <= i < |items| ==> keys[i] == Key(items[i])
  {
    seq(|items|, i requires 0 <= i < |items| => Key(items[i]))
  }

  lemma KeyOfArray(items: seq<Hash>)
    ensures Key(Arr(items)) == Join(Keys(items), ",")
  {
  }

  lemma KeysAppend(a: seq<Hash>, b: seq<Hash>)
    ensures Keys(a + b) == Keys(a) + Keys(b)
  {
  }

  /**
   * A non-empty array nested in an array gives the same key as its items
   * spliced in its place; an array of one key has that key's string.
   */
  lemma Flatten(before: seq<Hash>, inner: seq<Hash>, after: seq<Hash>)
    requires inner != []
    ensures Key(Arr(before + [Arr(inner)] + after)) == Key(Arr(before + inner + after))
    ensures forall h :: Key(Arr([h])) == Key(h)
  {
    var sep := ",";
    var b, m, a := Keys(before), Keys(inner), Keys(after);
    KeyOfArray(before + [Arr(inner)] + after);
    KeyOfArray(before + inner + after);
    KeysAppend(before + [Arr(inner)], after);
    KeysAppend(before, [Arr(inner)]);
    KeysAppend(before + inner, after);
    KeysAppend(before, inner);
    KeyOfArray(inner);
    var j := Join(m, sep);
    assert Keys([Arr(inner)]) == [j];
    assert Join([j], sep) == j;
    assert Join(b + [j], sep) == Join(b + m, sep) by {
      if b == [] {
        assert b + [j] == [j] && b + m == m;
      } else {
        JoinAppend(b, [j], sep);
        JoinAppend(b, m, sep);
      }
    }
    if a != [] {
      JoinAppend(b + [j], a, sep);
      JoinAppend(b + m, a, sep);
    } else {
      assert b + [j] + a == b + [j] && b + m + a == b + m;
    }
    forall h
      ensures Key(Arr([h])) == Key(h)
    {
      KeyOfArray([h]);
    }
  }

  /** Different arrays can share a key: a comma inside a string reads like a separator. */
  lemma CommaCollision()
    ensures Arr([Str("a,b")]) != Arr([Str("a"), Str("b")])
    ensures Key(Arr([Str("a,b")])) == Key(Arr([Str("a"), Str("b")]))
  {
    KeyOfArray([Str("a"), Str("b")]);
    JoinTwo("a", "b", ",");
    assert Keys([Str("a"), Str("b")]) == ["a", "b"];
  }

  /** The module's store; images are values of type V. */
  class Cache<V> {
    var imageCache: map<string, V>

    constructor()
      ensures imageCache == map[]
    {
      imageCache := map[];
    }

    /**
     * useImageCache: `image` is what getImage() would return, and `called`
     * says whether getImage is called. It is called exactly when the key is
     * new, and its image is stored under that key and nothing else; the
     * result is always what the store holds for the key, so a second use of
     * the same key returns the first image without calling getImage.
     */
    method UseImageCache(hash: Hash, image: V) returns (value: V, called: bool)
      modifies this
      ensures called <==> Key(hash) !in old(imageCache)
      ensures called ==> imageCache == old(imageCache)[Key(hash) := image] && value == image
      ensures !called ==> imageCache == old(imageCache) && value == old(imageCache)[Key(hash)]
      ensures Key(hash) in imageCache && imageCache[Key(hash)] == value
      ensures forall k :: k in old(imageCache) ==> k in imageCache && (k != Key(hash) ==> imageCache[k] == old(imageCache)[k])
    {
      var stringHash := Key(hash);
      called := stringHash !in imageCache;
      if called {
        imageCache := imageCache[stringHash := image];
      }
      value := imageCache[stringHash];
    }
  }
}
