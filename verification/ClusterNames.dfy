/** api/controlplane/v1beta2/related_types.go: the cluster name that is generated when the
    user gives none, and the validator every cluster name has to pass. */
module ClusterNames {
  import opened Wrappers

  const RESOURCE_PREFIX := "capa_"
  const MAX_CLUSTER_NAME_LENGTH := 63
  const GENERATED_CLUSTER_NAME_LENGTH := 32
  const HASH_LENGTH := GENERATED_CLUSTER_NAME_LENGTH - |RESOURCE_PREFIX|
  const BASE36_SET := "0123456789abcdefghijklmnopqrstuvwxyz"

  type Byte = b: int | 0 <= b < 256

  /** The hash function blake2b, of which only the length of its result matters here. */
  type Hash = string -> seq<Byte>

  ghost predicate HashesTo(hash: Hash, length: nat)
  {
    forall s :: |hash(s)| == length
  }

  predicate IsLowerAlnum(c: char)
  {
    'a' <= c <= 'z' || '0' <= c <= '9'
  }

  predicate IsNameChar(c: char)
  {
    'a' <= c <= 'z' || 'A' <= c <= 'Z' || '0' <= c <= '9' || c == '_' || c == '-'
  }

  ghost predicate ValidClusterName(name: string)
  {
    && |name| <= MAX_CLUSTER_NAME_LENGTH
    && (name != "" ==> name[0] != '-' && name[0] != '_')
    && forall i :: 0 <= i < |name| ==> IsNameChar(name[i])
  }

  datatype NameError = TooLong | BadPrefix | BadCharacters

  method ValidateClusterName(name: string) returns (allErrs: seq<NameError>)
    ensures allErrs == [] <==> ValidClusterName(name)
    ensures TooLong in allErrs <==> |name| > 63
    ensures BadPrefix in allErrs <==> "-" <= name || "_" <= name
    ensures BadCharacters in allErrs <==> exists i :: 0 <= i < |name| && !IsNameChar(name[i])
  {
    allErrs := [];
    if |name| > MAX_CLUSTER_NAME_LENGTH {
      allErrs := allErrs + [TooLong];
    }
    if "-" <= name || "_" <= name {
      allErrs := allErrs + [BadPrefix];
    }
    if exists i | 0 <= i < |name| :: !IsNameChar(name[i]) {
      allErrs := allErrs + [BadCharacters];
    }
  }

  function Replace(s: string, from: char, to: char): (r: string)
    ensures |r| == |s|
    ensures forall i :: 0 <= i < |s| ==> r[i] == if s[i] == from then to else s[i]
  {
    seq(|s|, i requires 0 <= i < |s| => if s[i] == from then to else s[i])
  }

  function Base36Char(digit: nat): (c: char)
    requires digit < 36
    ensures IsLowerAlnum(c)
    ensures c as int == if digit < 10 then '0' as int + digit else 'a' as int + (digit - 10)
  {
    BASE36_SET[digit]
  }

  function Base36(bytes: seq<Byte>): (chars: string)
    ensures |chars| == |bytes|
    ensures forall i :: 0 <= i < |bytes| ==> chars[i] == Base36Char(bytes[i] % 36)
  {
    seq(|bytes|, i requires 0 <= i < |bytes| => Base36Char(bytes[i] % 36))
  }

  method Base36Truncate(bytes: seq<Byte>) returns (chars: string)
    ensures chars == Base36(bytes)
  {
    chars := "";
    for i := 0 to |bytes|
      invariant chars == Base36(bytes[..i])
    {
      var idx := bytes[i] % 36;
      chars := chars + [Base36Char(idx)];
      assert chars == Base36(bytes[..i + 1]);
    }
    assert bytes[..|bytes|] == bytes;
  }

  function FullName(namespace: string, resourceName: string): string
  {
    namespace + "_" + Replace(resourceName, '.', '_')
  }

  predicate IsShort(namespace: string, resourceName: string)
  {
    |FullName(namespace, resourceName)| < MAX_CLUSTER_NAME_LENGTH
  }

  function GenerateClusterName(resourceName: string, namespace: string, hash: Hash): string
  {
    if IsShort(namespace, resourceName) then FullName(namespace, resourceName)
    else RESOURCE_PREFIX + Base36(hash(FullName(namespace, resourceName)))
  }

  /******* Names the API server accepts: section 2.1 of RFC 1123 *******/

  ghost predicate IsDnsLabel(s: string)
  {
    && 1 <= |s| <= 63 && IsLowerAlnum(s[0]) && IsLowerAlnum(s[|s| - 1])
    && forall i :: 0 <= i < |s| ==> IsLowerAlnum(s[i]) || s[i] == '-'
  }

  ghost predicate IsDnsSubdomain(s: string)
  {
    && 1 <= |s| <= 253 && IsLowerAlnum(s[0]) && IsLowerAlnum(s[|s| - 1])
    && (forall i :: 0 <= i < |s| ==> IsLowerAlnum(s[i]) || s[i] == '-' || s[i] == '.')
    && forall i :: 0 < i < |s| - 1 && s[i] == '.' ==> IsLowerAlnum(s[i - 1]) && IsLowerAlnum(s[i + 1])
  }

  lemma GeneratedNameIsValid(resourceName: string, namespace: string, hash: Hash)
    requires IsDnsLabel(namespace) && IsDnsSubdomain(resourceName) && HashesTo(hash, HASH_LENGTH)
    ensures ValidClusterName(GenerateClusterName(resourceName, namespace, hash))
  {
    var name := GenerateClusterName(resourceName, namespace, hash);
    assert name[0] == if IsShort(namespace, resourceName) then namespace[0] else 'c';
    forall i | 0 <= i < |name| ensures IsNameChar(name[i]) {
      if IsShort(namespace, resourceName) {
        var n := |namespace|;
        assert name[i] == if i < n then namespace[i] else if i == n then '_'
                          else Replace(resourceName, '.', '_')[i - n - 1];
      }
    }
  }

  /** The position of the first underscore. */
  function FirstUnderscore(s: string): (k: nat)
    ensures k <= |s|
    ensures forall i :: 0 <= i < k ==> s[i] != '_'
    ensures k < |s| ==> s[k] == '_'
  {
    if s == "" || s[0] == '_' then 0 else 1 + FirstUnderscore(s[1..])
  }

  /** Splits a short generated name into namespace and resource name. */
  function DecodeClusterName(name: string): (string, string)
  {
    var k := FirstUnderscore(name);
    (name[..k], if k < |name| then Replace(name[k + 1..], '_', '.') else "")
  }

  /** On the short branch nothing is lost: the name decodes back to the pair. */
  lemma DecodesFullName(resourceName: string, namespace: string)
    requires IsDnsLabel(namespace) && IsDnsSubdomain(resourceName)
    ensures DecodeClusterName(FullName(namespace, resourceName)) == (namespace, resourceName)
  {
    var name := FullName(namespace, resourceName);
    var k := FirstUnderscore(name);
    assert name[|namespace|] == '_';
    assert forall i :: 0 <= i < |namespace| ==> name[i] == namespace[i];
    assert k == |namespace|;
    assert name[..k] == namespace;
    var escaped := Replace(resourceName, '.', '_');
    assert name[k + 1..] == escaped;
    assert Replace(escaped, '_', '.') == resourceName;
  }

  /** The digest part of a hashed name. */
  function Digest(resourceName: string, namespace: string, hash: Hash): string
  {
    Base36(hash(FullName(namespace, resourceName)))
  }

  /** A hashed name spells the short name of one other pair: namespace capa, name the digest. */
  lemma HashedNameLooksShort(resourceName: string, namespace: string, hash: Hash)
    requires HashesTo(hash, HASH_LENGTH)
    ensures var digest := Digest(resourceName, namespace, hash);
            && IsDnsLabel("capa") && IsDnsSubdomain(digest) && IsShort("capa", digest)
            && FullName("capa", digest) == RESOURCE_PREFIX + digest
  {
    var digest := Digest(resourceName, namespace, hash);
    assert |hash(FullName(namespace, resourceName))| == HASH_LENGTH;
    assert Replace(digest, '.', '_') == digest;
    assert FullName("capa", digest) == RESOURCE_PREFIX + digest;
  }

  /** Exactly when two resources get the same generated cluster name: never both on the short
      branch unless they are the same; otherwise the digests agree, or one is the short pair
      (capa, digest of the other). */
  lemma NamesCollide(name1: string, ns1: string, name2: string, ns2: string, hash: Hash)
    requires IsDnsLabel(ns1) && IsDnsSubdomain(name1) && IsDnsLabel(ns2) && IsDnsSubdomain(name2)
    requires HashesTo(hash, HASH_LENGTH)
    ensures GenerateClusterName(name1, ns1, hash) == GenerateClusterName(name2, ns2, hash) <==>
            if IsShort(ns1, name1) then
              if IsShort(ns2, name2) then (ns1, name1) == (ns2, name2)
              else (ns1, name1) == ("capa", Digest(name2, ns2, hash))
            else
              if IsShort(ns2, name2) then (ns2, name2) == ("capa", Digest(name1, ns1, hash))
              else Digest(name1, ns1, hash) == Digest(name2, ns2, hash)
  {
    DecodesFullName(name1, ns1);
    DecodesFullName(name2, ns2);
    HashedNameLooksShort(name1, ns1, hash);
    HashedNameLooksShort(name2, ns2, hash);
    DecodesFullName(Digest(name1, ns1, hash), "capa");
    DecodesFullName(Digest(name2, ns2, hash), "capa");
    var d1, d2 := Digest(name1, ns1, hash), Digest(name2, ns2, hash);
    assert (RESOURCE_PREFIX + d1)[5..] == d1 && (RESOURCE_PREFIX + d2)[5..] == d2;
  }

  /** So distinctness is not guaranteed: every pair too long for the short branch collides
      with a pair that is itself a legal namespace and name. */
  lemma EveryHashedNameCollides(name: string, ns: string, hash: Hash)
    requires IsDnsLabel(ns) && IsDnsSubdomain(name) && HashesTo(hash, HASH_LENGTH) && !IsShort(ns, name)
    ensures exists name2, ns2 ::
              && IsDnsLabel(ns2) && IsDnsSubdomain(name2) && (ns2, name2) != (ns, name)
              && GenerateClusterName(name2, ns2, hash) == GenerateClusterName(name, ns, hash)
  {
    HashedNameLooksShort(name, ns, hash);
    var digest := Digest(name, ns, hash);
    assert GenerateClusterName(digest, "capa", hash) == GenerateClusterName(name, ns, hash);
  }
}
