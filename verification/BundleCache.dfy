/** The bounded cache of parsed bundles, against a fresh parse.

    Source: `_cache_probe`, `_cache_put`, `load_bundle_file`, `load_bundle_verified` of
    `tools/saipal_engine/bundle.py`. Reading, parsing and digesting are arbitrary functions; the
    stat tuple and the bytes are observed at different moments. */
module BundleCache {
  import opened Options

  type Path = string
  type Bytes = string
  type Spec = string
  type Bundle = string

  datatype Stat = Stat(size: nat, mtime: nat, inode: nat)

  /** How bytes become a bundle under a validation policy, and a bundle's own digest. */
  datatype Parser = Parser(parse: (Bytes, Spec) -> Option<Bundle>, digest: Bundle -> string)

  datatype Entry = Entry(path: Path, stat: Stat, digest: string, spec: Spec, bundle: Bundle)

  datatype Result<+T> = Ok(value: T) | Invalid

  const BUNDLE_CACHE_MAX := 4

  /** Some bytes were accepted as this bundle under this policy. */
  ghost predicate Validated(p: Parser, spec: Spec, bundle: Bundle) {
    exists bytes :: p.parse(bytes, spec) == Some(bundle)
  }

  ghost predicate EntrySound(p: Parser, e: Entry) { e.digest == p.digest(e.bundle) && Validated(p, e.spec, e.bundle) }

  /** What loading without any cache gives. */
  function Fresh(p: Parser, bytes: Option<Bytes>, spec: Spec, expected: string): Result<Bundle> {
    if bytes.None? || p.parse(bytes.value, spec).None? then Invalid
    else
      var bundle := p.parse(bytes.value, spec).value;
      if p.digest(bundle) == expected then Ok(bundle) else Invalid
  }

  /** The entry stands for what its stat tuple stands for. */
  predicate EntryFaithful(p: Parser, bytesOf: Stat -> Bytes, e: Entry) {
    p.parse(bytesOf(e.stat), e.spec) == Some(e.bundle)
  }

  predicate OnePerPath(entries: seq<Entry>) {
    forall i, j :: 0 <= i < j < |entries| ==> entries[i].path != entries[j].path
  }

  function MoveToEnd(entries: seq<Entry>, i: nat): seq<Entry>
    requires i < |entries|
  {
    entries[..i] + entries[i + 1..] + [entries[i]]
  }

  lemma MovedKeeps(entries: seq<Entry>, i: nat)
    requires i < |entries| && OnePerPath(entries)
    ensures OnePerPath(MoveToEnd(entries, i)) && |MoveToEnd(entries, i)| == |entries|
    ensures forall e :: e in MoveToEnd(entries, i) <==> e in entries
  {
    var moved := MoveToEnd(entries, i);
    forall k | 0 <= k < |entries|
      ensures moved[k] == if k < i then entries[k] else if k < |entries| - 1 then entries[k + 1] else entries[i]
    {
    }
    assert entries == entries[..i] + [entries[i]] + entries[i + 1..];
  }

  class Cache {
    const p: Parser
    var entries: seq<Entry>            // least recently used first

    ghost predicate Valid()
      reads this
    {
      |entries| <= BUNDLE_CACHE_MAX && (forall e :: e in entries ==> EntrySound(p, e)) && OnePerPath(entries)
    }

    /** If equal stat tuples mean equal bytes, every entry equals a fresh parse of its file. */
    ghost predicate Faithful(bytesOf: Stat -> Bytes)
      reads this
    {
      forall e :: e in entries ==> EntryFaithful(p, bytesOf, e)
    }

    constructor (p: Parser)
      ensures Valid() && this.p == p && entries == []
    {
      this.p, entries := p, [];
    }

    method IndexOf(path: Path) returns (i: nat)
      ensures i <= |entries| && (i < |entries| ==> entries[i].path == path)
      ensures i == |entries| ==> forall e :: e in entries ==> e.path != path
    {
      i := 0;
      while i < |entries| && entries[i].path != path
        invariant i <= |entries| && forall k :: 0 <= k < i ==> entries[k].path != path
      {
        i := i + 1;
      }
    }

    /** A hit agrees on path, stat tuple, digest and policy, and becomes the most recent entry. */
    method Probe(path: Path, stat: Option<Stat>, expected: string, spec: Spec) returns (hit: Option<Bundle>)
      requires Valid()
      modifies this
      ensures Valid() && |entries| == old(|entries|) && forall e :: e in entries <==> e in old(entries)
      ensures hit.Some? ==> stat.Some? && entries != []
      ensures hit.Some? ==> entries[|entries| - 1] == Entry(path, stat.value, expected, spec, hit.value)
      ensures hit.None? ==> entries == old(entries)
      ensures hit.Some? <==> stat.Some? && exists b :: Entry(path, stat.value, expected, spec, b) in old(entries)
    {
      hide EntrySound;
      if stat.None? {
        return None;
      }
      var i := IndexOf(path);
      if i == |entries| || entries[i].stat != stat.value || entries[i].digest != expected || entries[i].spec != spec {
        OnlyOne(entries, i, path);
        return None;
      }
      hit := Some(entries[i].bundle);
      assert entries[i] in entries && entries[i] == Entry(path, stat.value, expected, spec, hit.value);
      MovedKeeps(entries, i);
      entries := MoveToEnd(entries, i);
    }

    /** An entry of a path already held keeps its place; otherwise the oldest go first. */
    method Put(path: Path, stat: Option<Stat>, digest: string, spec: Spec, bundle: Bundle)
      requires Valid() && digest == p.digest(bundle) && Validated(p, spec, bundle)
      modifies this
      ensures Valid() && |entries| <= 4
      ensures stat.None? ==> entries == old(entries)
      ensures forall e :: e in entries ==>
                e in old(entries) || (stat.Some? && e == Entry(path, stat.value, digest, spec, bundle))
      ensures stat.Some? ==> Entry(path, stat.value, digest, spec, bundle) in entries
      ensures stat.Some? ==>
                forall i :: 0 <= i < |old(entries)| && old(entries)[i].path == path ==>
                  entries == old(entries)[i := Entry(path, stat.value, digest, spec, bundle)]
      ensures stat.Some? && (forall e :: e in old(entries) ==> e.path != path) ==>
                entries == (if old(|entries|) == 4 then old(entries)[1..] else old(entries))
                           + [Entry(path, stat.value, digest, spec, bundle)]
    {
      if stat.None? {
        return;
      }
      var e := Entry(path, stat.value, digest, spec, bundle);
      var i := IndexOf(path);
      if i < |entries| {
        assert entries[i] in entries;
        entries := entries[i := e];
        assert entries[i] == e;
        return;
      }
      entries := entries + [e];
      if |entries| > BUNDLE_CACHE_MAX {
        entries := entries[1..];
      }
      assert entries[|entries| - 1] == e;
    }

    /** Whatever was loaded, evicted, replaced or re-specified before: what it returns has the
        expected digest as its own and was validated under this policy, or it refuses. When stat and
        bytes are of one file and equal stat tuples mean equal bytes, it answers exactly as a fresh
        load would. */
    method LoadVerified(path: Path, stat: Option<Stat>, bytes: Option<Bytes>, spec: Spec, expected: string,
            ghost bytesOf: Stat -> Bytes)
      returns (r: Result<Bundle>)
      requires Valid()
      modifies this
      ensures Valid()
      ensures r.Ok? ==> p.digest(r.value) == expected && Validated(p, spec, r.value)
      ensures r.Ok? && stat.Some? ==> Entry(path, stat.value, expected, spec, r.value) in entries
      ensures stat.Some? && (exists b :: Entry(path, stat.value, expected, spec, b) in old(entries)) ==> r.Ok?
      ensures r.Invalid? ==>
                || bytes.None? || p.parse(bytes.value, spec).None?
                || p.digest(p.parse(bytes.value, spec).value) != expected
      ensures old(Faithful(bytesOf)) && OneFile(stat, bytes, bytesOf) ==>
                Faithful(bytesOf) && r == Fresh(p, bytes, spec, expected)
    {
      var hit := Probe(path, stat, expected, spec);
      if hit.Some? {
        var e := entries[|entries| - 1];
        assert e in entries && EntrySound(p, e);
        assert old(Faithful(bytesOf)) ==> EntryFaithful(p, bytesOf, e);
        return Ok(hit.value);
      }
      if bytes.None? {
        return Invalid;
      }
      var parsed := p.parse(bytes.value, spec);
      if parsed.None? || p.digest(parsed.value) != expected {
        return Invalid;
      }
      Put(path, stat, expected, spec, parsed.value);
      return Ok(parsed.value);
    }

    /** Without a trusted digest the bundle is always parsed, and cached under its own digest. */
    method LoadFile(path: Path, stat: Option<Stat>, bytes: Option<Bytes>, spec: Spec, expected: Option<string>,
            ghost bytesOf: Stat -> Bytes)
      returns (r: Result<Bundle>)
      requires Valid()
      modifies this
      ensures Valid()
      ensures r.Ok? ==> Validated(p, spec, r.value)
      ensures !Has(expected) ==>
                r == if bytes.Some? && p.parse(bytes.value, spec).Some? then Ok(p.parse(bytes.value, spec).value)
                     else Invalid
      ensures old(Faithful(bytesOf)) && OneFile(stat, bytes, bytesOf) ==>
                && Faithful(bytesOf)
                && r == if bytes.Some? && p.parse(bytes.value, spec).Some? then Ok(p.parse(bytes.value, spec).value)
                        else Invalid
    {
      if Has(expected) {
        var hit := Probe(path, stat, expected.value, spec);
        if hit.Some? {
          var e := entries[|entries| - 1];
          assert e in entries && EntrySound(p, e);
          assert old(Faithful(bytesOf)) ==> EntryFaithful(p, bytesOf, e);
          return Ok(hit.value);
        }
      }
      if bytes.None? {
        return Invalid;
      }
      var parsed := p.parse(bytes.value, spec);
      if parsed.None? {
        return Invalid;
      }
      Put(path, stat, p.digest(parsed.value), spec, parsed.value);
      return Ok(parsed.value);
    }
  }

  /** The stat tuple and the bytes were of the same file, and the tuple determines its bytes. */
  predicate OneFile(stat: Option<Stat>, bytes: Option<Bytes>, bytesOf: Stat -> Bytes) {
    stat.Some? ==> bytes == Some(bytesOf(stat.value))
  }

  lemma OnlyOne(entries: seq<Entry>, i: nat, path: Path)
    requires i <= |entries| && (i < |entries| ==> entries[i].path == path)
    requires i == |entries| ==> forall e :: e in entries ==> e.path != path
    requires OnePerPath(entries)
    ensures forall e :: e in entries && e.path == path ==> i < |entries| && e == entries[i]
  {
  }

  /** The one-file condition is needed: a file replaced between its stat and its read is cached under
      the tuple it no longer has. If those bytes come back, a hit answers where a fresh load
      refuses; the answer still has the digest that was asked for. */
  method ReplacedBetweenStatAndRead(p: Parser, spec: Spec, before: Bytes, after: Bytes, stat: Stat)
    returns (r: Result<Bundle>)
    requires p.parse(before, spec).Some? && p.parse(after, spec).Some?
    requires p.digest(p.parse(before, spec).value) != p.digest(p.parse(after, spec).value)
    ensures var expected := p.digest(p.parse(after, spec).value);
            r.Ok? && p.digest(r.value) == expected && Fresh(p, Some(before), spec, expected) == Invalid
  {
    var cache := new Cache(p);
    var expected := p.digest(p.parse(after, spec).value);
    // The stat is of the old file, the bytes are of the new one.
    r := cache.LoadVerified("bundle", Some(stat), Some(after), spec, expected, (s: Stat) => before);
    // The old bytes are back, with their old tuple.
    r := cache.LoadVerified("bundle", Some(stat), Some(before), spec, expected, (s: Stat) => before);
  }
}
