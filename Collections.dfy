/**
 * The add operations of the two collections a request carries, and the
 * loops that copy one collection into another: header collections
 * (`HttpHeaders.TryAddWithoutValidation`) and the options property bag
 * (`HttpRequestOptions.TryAdd`). Both are generic in the type of names.
 */
module Collections {
  /** The values held under `name`, or none (generic in the type of names). */
  function ValuesOf<N>(h: map<N, seq<string>>, name: N): seq<string> {
    if name in h then h[name] else []
  }

  /**
   * `TryAddWithoutValidation(name, values)`: the values are appended to
   * those already held under `name`, and no other header changes.
   */
  function AddWithoutValidation<N>(h: map<N, seq<string>>, name: N, values: seq<string>): (r: map<N, seq<string>>)
    ensures r.Keys == h.Keys + {name}
    ensures r[name] == ValuesOf(h, name) + values
    ensures forall n :: n in h && n != name ==> r[n] == h[n]
  {
    h[name := ValuesOf(h, name) + values]
  }

  /**
   * Every header of `src` added to `dst`: a name present in both ends with
   * the values of `dst` followed by those of `src`.
   */
  ghost predicate IsMerge<N>(r: map<N, seq<string>>, dst: map<N, seq<string>>, src: map<N, seq<string>>) {
    && r.Keys == dst.Keys + src.Keys
    && forall n :: n in r ==> r[n] == ValuesOf(dst, n) + ValuesOf(src, n)
  }

  /** Adding every header of `src` to an empty collection gives `src` back. */
  lemma MergeIntoEmpty<N>(r: map<N, seq<string>>, src: map<N, seq<string>>)
    requires IsMerge(r, map[], src)
    ensures r == src
  {
    forall n | n in r
      ensures r[n] == src[n]
    {
      assert ValuesOf(map[], n) == [];
      assert r[n] == [] + src[n];
    }
  }

  /** `Options.TryAdd(key, value)`: adds the entry only when `key` is absent. */
  function TryAdd<K, V>(m: map<K, V>, key: K, value: V): (r: map<K, V>)
    ensures key in m ==> r == m
    ensures key !in m ==> r.Keys == m.Keys + {key} && r[key] == value
    ensures forall k :: k in m ==> r[k] == m[k]
  {
    if key in m then m else m[key := value]
  }

  /** Every entry of `src` added with `TryAdd` to `dst`: entries of `dst` are kept. */
  ghost predicate IsTryAddAll<K, V>(r: map<K, V>, dst: map<K, V>, src: map<K, V>) {
    && r.Keys == dst.Keys + src.Keys
    && (forall k :: k in dst ==> r[k] == dst[k])
    && (forall k :: k in src && k !in dst ==> r[k] == src[k])
  }

  /** Adding every entry of `src` to an empty bag gives `src` back. */
  lemma TryAddAllIntoEmpty<K, V>(r: map<K, V>, src: map<K, V>)
    requires IsTryAddAll(r, map[], src)
    ensures r == src
  {
  }

  /** Adds every header of `src` to `dst` with `TryAddWithoutValidation`, one name at a time. */
  method CopyHeaders<N>(src: map<N, seq<string>>, dst: map<N, seq<string>>) returns (r: map<N, seq<string>>)
    ensures IsMerge(r, dst, src)
  {
    r := dst;
    var pending := src.Keys;
    while pending != {}
      invariant HeadersCopied(r, dst, src, pending)
      decreases pending
    {
      var name :| name in pending;
      CopyHeaderStep(r, dst, src, pending, name);
      r := AddWithoutValidation(r, name, src[name]);
      pending := pending - {name};
    }
  }

  /** Adds every entry of `src` to `dst` with `TryAdd`, one key at a time. */
  method CopyOptions<K, V>(src: map<K, V>, dst: map<K, V>) returns (r: map<K, V>)
    ensures IsTryAddAll(r, dst, src)
  {
    r := dst;
    var pending := src.Keys;
    while pending != {}
      invariant OptionsCopied(r, dst, src, pending)
      decreases pending
    {
      var key :| key in pending;
      CopyOptionStep(r, dst, src, pending, key);
      r := TryAdd(r, key, src[key]);
      pending := pending - {key};
    }
  }

  /** `r` is `dst` with the headers of `src` added, except those whose names are still `pending`. */
  ghost predicate HeadersCopied<N>(r: map<N, seq<string>>, dst: map<N, seq<string>>, src: map<N, seq<string>>, pending: set<N>) {
    && pending <= src.Keys
    && r.Keys == dst.Keys + (src.Keys - pending)
    && forall n :: n in r ==> r[n] == ValuesOf(dst, n) + (if n in src && n !in pending then src[n] else [])
  }

  lemma CopyHeaderStep<N>(r: map<N, seq<string>>, dst: map<N, seq<string>>, src: map<N, seq<string>>, pending: set<N>, name: N)
    requires HeadersCopied(r, dst, src, pending) && name in pending
    ensures HeadersCopied(AddWithoutValidation(r, name, src[name]), dst, src, pending - {name})
  {
  }

  /** `r` is `dst` with the entries of `src` tried, except those whose keys are still `pending`. */
  ghost predicate OptionsCopied<K, V>(r: map<K, V>, dst: map<K, V>, src: map<K, V>, pending: set<K>) {
    && pending <= src.Keys
    && r.Keys == dst.Keys + (src.Keys - pending)
    && (forall k :: k in dst ==> r[k] == dst[k])
    && (forall k :: k in src && k !in dst && k !in pending ==> r[k] == src[k])
  }

  lemma CopyOptionStep<K, V>(r: map<K, V>, dst: map<K, V>, src: map<K, V>, pending: set<K>, key: K)
    requires OptionsCopied(r, dst, src, pending) && key in pending
    ensures OptionsCopied(TryAdd(r, key, src[key]), dst, src, pending - {key})
  {
  }
}
