/** Memory-type selection (`find_memorytype_index` / `find_memorytype_index_f`), the
    two-pass search of the "Device Memory Properties" part of the Vulkan specification's
    Device Memory section. The same code appears in src/render_backends/vulkan/mod.rs,
    src/renderer/mod.rs and src/os_platform/vulkan/image_views.rs. */
module MemoryTypeSelection {
  import opened Wrappers
  import opened Vk

  const NO_SUITABLE_MEMORY_MESSAGE: string := "Unable to find suitable memory index for depth image."

  /** The mask after `i` logical right shifts by one (`>>= 1` on an unsigned value halves it). */
  function Shifted(bits: u32, i: nat): (r: u32)
    ensures r <= bits
  {
    if i == 0 then bits else Shifted(bits, i - 1) / 2
  }

  /** Memory type `i` is permitted by the mask: bit `i` of `memoryTypeBits` is set, which is
      what the loop sees as `memory_type_bits & 1 == 1` after shifting the mask `i` times. */
  predicate Allowed(bits: u32, i: nat) {
    i < 32 && Shifted(bits, i) % 2 == 1
  }

  /** The pass-1 test of `find_memorytype_index`: `property_flags == flags`. */
  predicate ExactFlags(propertyFlags: Flags, flags: Flags) {
    propertyFlags == flags
  }

  /** The pass-2 test: `property_flags & flags == flags`. */
  predicate SupersetFlags(propertyFlags: Flags, flags: Flags) {
    flags <= propertyFlags
  }

  /** Index `i` is allowed by the mask and its type passes `f`. */
  predicate Candidate(bits: u32, types: MemoryTypes, flags: Flags, f: (Flags, Flags) -> bool, i: nat)
    requires i < |types|
  {
    Allowed(bits, i) && f(types[i].propertyFlags, flags)
  }

  /** The lowest candidate index at or after `from`, if there is one. */
  function FirstCandidate(bits: u32, types: MemoryTypes, flags: Flags, f: (Flags, Flags) -> bool, from: nat): Option<nat>
    requires from <= |types|
    decreases |types| - from
  {
    if from == |types| then None
    else if Candidate(bits, types, flags, f, from) then Some(from)
    else FirstCandidate(bits, types, flags, f, from + 1)
  }

  /** `FirstCandidate` finds the lowest candidate at or after `from`, and nothing exactly
      when there is none. */
  lemma {:induction false} FirstCandidateIsLowest(bits: u32, types: MemoryTypes, flags: Flags, f: (Flags, Flags) -> bool, from: nat)
    requires from <= |types|
    decreases |types| - from
    ensures var r := FirstCandidate(bits, types, flags, f, from);
      r.Some? ==> from <= r.value < |types| && Candidate(bits, types, flags, f, r.value)
    ensures var r := FirstCandidate(bits, types, flags, f, from);
      r.Some? ==> forall j :: from <= j < r.value ==> !Candidate(bits, types, flags, f, j)
    ensures FirstCandidate(bits, types, flags, f, from).None? <==>
      forall j :: from <= j < |types| ==> !Candidate(bits, types, flags, f, j)
  {
    if from < |types| && !Candidate(bits, types, flags, f, from) {
      FirstCandidateIsLowest(bits, types, flags, f, from + 1);
    }
  }

  /** `find_memorytype_index_f` as a value: `Ok` of the lowest candidate index, else the error. */
  function SearchResult(req: MemoryRequirements, types: MemoryTypes, flags: Flags, f: (Flags, Flags) -> bool): Result<u32> {
    FirstCandidateIsLowest(req.memoryTypeBits, types, flags, f, 0);
    match FirstCandidate(req.memoryTypeBits, types, flags, f, 0)
    case Some(i) => Ok(i)
    case None => Err(Message(NO_SUITABLE_MEMORY_MESSAGE))
  }

  /** `find_memorytype_index_f`: walks every entry of `memory_types`, shifting the mask once
      per index, and returns the first allowed index whose flags pass `f`. */
  method FindMemoryTypeIndexF(req: MemoryRequirements, types: MemoryTypes, flags: Flags, f: (Flags, Flags) -> bool)
    returns (r: Result<u32>)
    ensures r.Ok? ==> r.value < MAX_MEMORY_TYPES && Candidate(req.memoryTypeBits, types, flags, f, r.value)
    ensures r.Ok? ==> forall j :: 0 <= j < r.value ==> !Candidate(req.memoryTypeBits, types, flags, f, j)
    ensures r.Err? <==> forall j :: 0 <= j < |types| ==> !Candidate(req.memoryTypeBits, types, flags, f, j)
    ensures r.Err? ==> r.error == Message(NO_SUITABLE_MEMORY_MESSAGE)
  {
    var memoryTypeBits := req.memoryTypeBits;
    var index := 0;
    while index < |types|
      invariant 0 <= index <= |types|
      invariant memoryTypeBits == Shifted(req.memoryTypeBits, index)
      invariant forall j :: 0 <= j < index ==> !Candidate(req.memoryTypeBits, types, flags, f, j)
    {
      if memoryTypeBits % 2 == 1 && f(types[index].propertyFlags, flags) {
        assert Candidate(req.memoryTypeBits, types, flags, f, index);
        return Ok(index);
      }
      memoryTypeBits := memoryTypeBits / 2;
      index := index + 1;
    }
    return Err(Message(NO_SUITABLE_MEMORY_MESSAGE));
  }

  /** `find_memorytype_index` as a value: the exact-match search, and the superset search
      only when the exact one fails. */
  function MemoryTypeIndex(req: MemoryRequirements, types: MemoryTypes, flags: Flags): Result<u32> {
    var best := SearchResult(req, types, flags, ExactFlags);
    if best.Ok? then best else SearchResult(req, types, flags, SupersetFlags)
  }

  /** `find_memorytype_index`: pass 1 with `property_flags == flags`, pass 2 with
      `property_flags & flags == flags`. */
  method FindMemoryTypeIndex(req: MemoryRequirements, types: MemoryTypes, flags: Flags) returns (r: Result<u32>)
    ensures r == MemoryTypeIndex(req, types, flags)
  {
    var best := FindMemoryTypeIndexF(req, types, flags, ExactFlags);
    SearchAgrees(req, types, flags, ExactFlags, best);
    if best.Ok? {
      return best;
    }
    r := FindMemoryTypeIndexF(req, types, flags, SupersetFlags);
    SearchAgrees(req, types, flags, SupersetFlags, r);
  }

  /** A result that meets `FindMemoryTypeIndexF`'s contract is `SearchResult`. */
  lemma SearchAgrees(req: MemoryRequirements, types: MemoryTypes, flags: Flags, f: (Flags, Flags) -> bool, r: Result<u32>)
    requires r.Ok? ==> r.value < MAX_MEMORY_TYPES && Candidate(req.memoryTypeBits, types, flags, f, r.value)
    requires r.Ok? ==> forall j :: 0 <= j < r.value ==> !Candidate(req.memoryTypeBits, types, flags, f, j)
    requires r.Err? <==> forall j :: 0 <= j < |types| ==> !Candidate(req.memoryTypeBits, types, flags, f, j)
    requires r.Err? ==> r.error == Message(NO_SUITABLE_MEMORY_MESSAGE)
    ensures r == SearchResult(req, types, flags, f)
  {
    FirstCandidateIsLowest(req.memoryTypeBits, types, flags, f, 0);
    var first := FirstCandidate(req.memoryTypeBits, types, flags, f, 0);
    if r.Ok? {
      assert first.Some?;
      if first.value < r.value {
      } else if r.value < first.value {
      }
    }
  }

  /** If an allowed type has exactly the requested flags, the result is the lowest such index. */
  lemma ExactMatchWins(req: MemoryRequirements, types: MemoryTypes, flags: Flags, i: nat)
    requires i < |types| && Allowed(req.memoryTypeBits, i) && types[i].propertyFlags == flags
    ensures var r := MemoryTypeIndex(req, types, flags);
      r.Ok? && r.value <= i && types[r.value].propertyFlags == flags && Allowed(req.memoryTypeBits, r.value)
    ensures var r := MemoryTypeIndex(req, types, flags);
      r.Ok? && forall j :: 0 <= j < r.value && Allowed(req.memoryTypeBits, j) ==> types[j].propertyFlags != flags
  {
    assert Candidate(req.memoryTypeBits, types, flags, ExactFlags, i);
    FirstCandidateIsLowest(req.memoryTypeBits, types, flags, ExactFlags, 0);
    var first := FirstCandidate(req.memoryTypeBits, types, flags, ExactFlags, 0);
    assert first.Some? && MemoryTypeIndex(req, types, flags) == Ok(first.value);
    forall j | 0 <= j < first.value && Allowed(req.memoryTypeBits, j)
      ensures types[j].propertyFlags != flags
    {
      assert !Candidate(req.memoryTypeBits, types, flags, ExactFlags, j);
    }
  }

  /** Without an exact match the result is the lowest allowed index whose flags are a superset. */
  lemma SupersetFallback(req: MemoryRequirements, types: MemoryTypes, flags: Flags)
    requires forall j :: 0 <= j < |types| && Allowed(req.memoryTypeBits, j) ==> types[j].propertyFlags != flags
    ensures MemoryTypeIndex(req, types, flags) == SearchResult(req, types, flags, SupersetFlags)
    ensures var r := MemoryTypeIndex(req, types, flags);
      r.Ok? ==> forall j :: 0 <= j < r.value && Allowed(req.memoryTypeBits, j) ==> !(flags <= types[j].propertyFlags)
  {
    forall j | 0 <= j < |types|
      ensures !Candidate(req.memoryTypeBits, types, flags, ExactFlags, j)
    {
      if Allowed(req.memoryTypeBits, j) {
        assert types[j].propertyFlags != flags;
      }
    }
    FirstCandidateIsLowest(req.memoryTypeBits, types, flags, ExactFlags, 0);
    FirstCandidateIsLowest(req.memoryTypeBits, types, flags, SupersetFlags, 0);
    assert FirstCandidate(req.memoryTypeBits, types, flags, ExactFlags, 0).None?;
    assert SearchResult(req, types, flags, ExactFlags).Err?;
    var second := FirstCandidate(req.memoryTypeBits, types, flags, SupersetFlags, 0);
    if second.Some? {
      forall j | 0 <= j < second.value && Allowed(req.memoryTypeBits, j)
        ensures !(flags <= types[j].propertyFlags)
      {
        assert !Candidate(req.memoryTypeBits, types, flags, SupersetFlags, j);
      }
    }
  }

  /** Any returned index is a real memory type, allowed by the mask, whose flags contain the request. */
  lemma ResultIsAllowedSuperset(req: MemoryRequirements, types: MemoryTypes, flags: Flags)
    ensures var r := MemoryTypeIndex(req, types, flags);
      r.Ok? ==> r.value < MAX_MEMORY_TYPES && Allowed(req.memoryTypeBits, r.value)
                && flags <= types[r.value].propertyFlags
  {
    FirstCandidateIsLowest(req.memoryTypeBits, types, flags, ExactFlags, 0);
    FirstCandidateIsLowest(req.memoryTypeBits, types, flags, SupersetFlags, 0);
    var first := FirstCandidate(req.memoryTypeBits, types, flags, ExactFlags, 0);
    if first.Some? {
      var i := first.value;
      assert Candidate(req.memoryTypeBits, types, flags, ExactFlags, i);
      assert SupersetFlags(types[i].propertyFlags, flags);
      assert MemoryTypeIndex(req, types, flags) == Ok(i);
    } else {
      var second := FirstCandidate(req.memoryTypeBits, types, flags, SupersetFlags, 0);
      if second.Some? {
        assert Candidate(req.memoryTypeBits, types, flags, SupersetFlags, second.value);
        assert MemoryTypeIndex(req, types, flags) == Ok(second.value);
      }
    }
  }

  /** The search fails exactly when no allowed type's flags are a superset of the request. */
  lemma ErrIffNoSuperset(req: MemoryRequirements, types: MemoryTypes, flags: Flags)
    ensures MemoryTypeIndex(req, types, flags).Err? <==>
      forall j :: 0 <= j < |types| && Allowed(req.memoryTypeBits, j) ==> !(flags <= types[j].propertyFlags)
    ensures MemoryTypeIndex(req, types, flags).Err? ==>
      MemoryTypeIndex(req, types, flags).error == Message(NO_SUITABLE_MEMORY_MESSAGE)
  {
    var r := MemoryTypeIndex(req, types, flags);
    if r.Err? {
      FirstCandidateIsLowest(req.memoryTypeBits, types, flags, SupersetFlags, 0);
      forall j | 0 <= j < |types| && Allowed(req.memoryTypeBits, j)
        ensures !(flags <= types[j].propertyFlags)
      {
        assert !Candidate(req.memoryTypeBits, types, flags, SupersetFlags, j);
      }
    } else {
      ResultIsAllowedSuperset(req, types, flags);
      assert Allowed(req.memoryTypeBits, r.value) && flags <= types[r.value].propertyFlags;
    }
  }
}
