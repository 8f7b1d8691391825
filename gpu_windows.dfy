/**
 * GPU detection on Windows (src/detection/gpu/gpu_windows.cpp). The registry
 * and DXGI are given as data: what each read or enumeration call would return.
 * The registry backend runs first; DXGI is tried only when the registry backend
 * reports an error.
 */
module GpuWindows {
  import opened Integers
  import opened Options
  import opened ResultStore
  import opened Gpu

  // ---------------------------------------------------------------------------
  // Classifiers
  // ---------------------------------------------------------------------------

  /** The `(wchar_t)` cast: wchar_t is 16 bits wide on Windows, so only the low 16 bits survive. */
  function WideChar(x: uint32): uint16 {
    (x as int % 0x1_0000) as uint16
  }

  const AmdIds: seq<uint16> := [0x1002, 0x1022]
  const IntelIds: seq<uint16> := [0x03e7, 0x8086, 0x8087]
  const NvidiaIds: seq<uint16> := [0x0955, 0x10de, 0x12d2]

  /** Vendor name for a PCI vendor id, looked up in three fixed tables; empty when none matches. */
  function VendorName(vendorId: uint32): (name: string)
    ensures name == VendorNameAmd <==> WideChar(vendorId) in AmdIds
    ensures name == VendorNameIntel <==> WideChar(vendorId) in IntelIds
    ensures name == VendorNameNvidia <==> WideChar(vendorId) in NvidiaIds
    ensures name == "" <==> WideChar(vendorId) !in AmdIds + IntelIds + NvidiaIds
  {
    var id := WideChar(vendorId);
    if id in AmdIds then VendorNameAmd
    else if id in IntelIds then VendorNameIntel
    else if id in NvidiaIds then VendorNameNvidia
    else ""
  }

  /** Ids that agree in their low 16 bits get the same vendor. */
  lemma VendorNameIgnoresHighBits(a: uint32, b: uint32)
    requires a as int % 0x1_0000 == b as int % 0x1_0000
    ensures VendorName(a) == VendorName(b)
  {
  }

  lemma VendorNameExamples()
    ensures VendorName(0x1002) == VendorNameAmd && VendorName(0x1022) == VendorNameAmd
    ensures VendorName(0x8086) == VendorNameIntel && VendorName(0x03e7) == VendorNameIntel
    ensures VendorName(0x10de) == VendorNameNvidia && VendorName(0x1_10de) == VendorNameNvidia
    ensures VendorName(0x0000) == "" && VendorName(0x1_0000) == ""
  {
  }

  /** 2^30 bytes (1 GiB) of dedicated video memory. */
  const DiscreteThreshold: int := 1024 * 1024 * 1024

  /** Memory tier of a measured amount of dedicated video memory; never unknown. */
  function MemoryTier(dedicatedVideoMemory: uint64): (t: GpuType)
    ensures t != Unknown
    ensures t == Discrete <==> dedicatedVideoMemory as int >= 0x4000_0000
  {
    if dedicatedVideoMemory as int >= DiscreteThreshold then Discrete else Integrated
  }

  /** The registry path: a missing reading leaves the type unknown. */
  function RegistryGpuType(dedicatedVideoMemory: Option<uint64>): (t: GpuType)
    ensures t == Unknown <==> dedicatedVideoMemory.None?
    ensures dedicatedVideoMemory.Some? ==> t == MemoryTier(dedicatedVideoMemory.value)
  {
    match dedicatedVideoMemory
    case None => Unknown
    case Some(bytes) => MemoryTier(bytes)
  }

  lemma MemoryTierExamples()
    ensures MemoryTier(1073741824) == Discrete && MemoryTier(1073741823) == Integrated
    ensures MemoryTier(0) == Integrated && RegistryGpuType(None) == Unknown
  {
  }

  // ---------------------------------------------------------------------------
  // The sources, as data
  // ---------------------------------------------------------------------------

  /**
   * What one enumeration step yields: the enumeration call fails (the loop
   * stops), the entry cannot be opened or described (it is skipped), or it is read.
   */
  datatype Enumerated<K> = EnumFailed | ReadFailed | Read(item: K)

  /** One subkey of SOFTWARE\Microsoft\DirectX; each value is None when it cannot be read. */
  datatype AdapterKey = AdapterKey(
    lastSeen: Option<uint64>,
    softwareAdapter: Option<uint32>,
    description: Option<string>,
    vendorId: Option<uint32>,
    dedicatedVideoMemory: Option<uint64>)

  /** The opened DirectX key: its LastSeen value and what enumerating its subkeys yields. */
  datatype DirectXKey = DirectXKey(lastSeen: Option<uint64>, subkeys: seq<Enumerated<AdapterKey>>)

  /** The fields of DXGI_ADAPTER_DESC1 that are used. */
  datatype AdapterDesc = AdapterDesc(
    description: string,
    vendorId: uint32,
    dedicatedVideoMemory: uint64,
    flags: bv32)

  /** A created DXGI factory and what enumerating its adapters yields. */
  datatype DxgiFactory = DxgiFactory(adapters: seq<Enumerated<AdapterDesc>>)

  const DxgiAdapterFlagSoftware: bv32 := 2

  /** Result of the enumeration call at `index`; every index past the sequence fails. */
  function EnumAt<K>(entries: seq<Enumerated<K>>, index: nat): Enumerated<K> {
    if index < |entries| then entries[index] else EnumFailed
  }

  /** No enumeration call before `n` failed. */
  predicate NoFailureBefore<K>(entries: seq<Enumerated<K>>, n: nat) {
    n <= |entries| && forall j :: 0 <= j < n ==> !entries[j].EnumFailed?
  }

  // ---------------------------------------------------------------------------
  // Enumerate, filter, append: the loop both backends share
  // ---------------------------------------------------------------------------

  /**
   * The records an enumeration loop appends: entries in index order up to the
   * first failing enumeration call, unreadable ones skipped, a record made from
   * every read entry that passes `keep`.
   */
  function Collect<K>(entries: seq<Enumerated<K>>, keep: K -> bool, make: K -> GpuResult): seq<GpuResult> {
    if entries == [] then []
    else
      match entries[0]
      case EnumFailed => []
      case ReadFailed => Collect(entries[1..], keep, make)
      case Read(k) => (if keep(k) then [make(k)] else []) + Collect(entries[1..], keep, make)
  }

  /** Indices from `lo` on of the entries that yield a record: read, kept, and before the first failing enumeration call. */
  ghost function KeptIndices<K>(s: seq<Enumerated<K>>, keep: K -> bool, lo: nat): set<nat> {
    set i: nat | lo <= i < |s| && NoFailureBefore(s, i) && s[i].Read? && keep(s[i].item)
  }

  /** From an index reached without a failure, the rest of the loop appends one record per kept entry. */
  lemma {:induction false} CollectCountFrom<K>(s: seq<Enumerated<K>>, keep: K -> bool, make: K -> GpuResult, lo: nat)
    requires NoFailureBefore(s, lo)
    ensures |Collect(s[lo..], keep, make)| == |KeptIndices(s, keep, lo)|
    decreases |s| - lo
  {
    if lo == |s| {
      assert KeptIndices(s, keep, lo) == {};
    } else if s[lo].EnumFailed? {
      forall i: nat | lo < i <= |s| ensures !NoFailureBefore(s, i) {
        assert s[lo].EnumFailed?;
      }
      assert KeptIndices(s, keep, lo) == {};
    } else {
      assert NoFailureBefore(s, lo + 1);
      CollectCountFrom(s, keep, make, lo + 1);
      assert s[lo..][1..] == s[lo + 1..];
      if s[lo].Read? && keep(s[lo].item) {
        assert KeptIndices(s, keep, lo) == KeptIndices(s, keep, lo + 1) + {lo};
      } else {
        assert KeptIndices(s, keep, lo) == KeptIndices(s, keep, lo + 1);
      }
    }
  }

  /** An enumeration loop appends exactly one record per kept entry before the first failing enumeration call. */
  lemma CollectCount<K>(s: seq<Enumerated<K>>, keep: K -> bool, make: K -> GpuResult)
    ensures |Collect(s, keep, make)| == |KeptIndices(s, keep, 0)|
  {
    CollectCountFrom(s, keep, make, 0);
    assert s[0..] == s;
  }

  /** The records of two runs of entries, the first without a failure, are those of the whole run, in order. */
  lemma {:induction false} CollectAppend<K>(s: seq<Enumerated<K>>, t: seq<Enumerated<K>>,
                                            keep: K -> bool, make: K -> GpuResult)
    requires NoFailureBefore(s, |s|)
    ensures Collect(s + t, keep, make) == Collect(s, keep, make) + Collect(t, keep, make)
  {
    if s != [] {
      assert (s + t)[0] == s[0];
      assert (s + t)[1..] == s[1..] + t;
      CollectAppend(s[1..], t, keep, make);
    } else {
      assert s + t == t;
    }
  }

  /** One more enumeration step that did not fail adds at most the record of that entry. */
  lemma CollectStep<K>(s: seq<Enumerated<K>>, i: nat, keep: K -> bool, make: K -> GpuResult)
    requires NoFailureBefore(s, i) && i < |s| && !s[i].EnumFailed?
    ensures Collect(s[..i + 1], keep, make) ==
      Collect(s[..i], keep, make) + (if s[i].Read? && keep(s[i].item) then [make(s[i].item)] else [])
  {
    assert s[..i + 1] == s[..i] + [s[i]];
    CollectAppend(s[..i], [s[i]], keep, make);
    assert [s[i]][1..] == [];
  }

  /** Nothing after the first failing enumeration call contributes a record. */
  lemma CollectStopsAtFailure<K>(s: seq<Enumerated<K>>, i: nat, keep: K -> bool, make: K -> GpuResult)
    requires NoFailureBefore(s, i)
    requires i < |s| ==> s[i].EnumFailed?
    ensures Collect(s, keep, make) == Collect(s[..i], keep, make)
  {
    if i < |s| {
      assert s == s[..i] + s[i..];
      CollectAppend(s[..i], s[i..], keep, make);
    } else {
      assert s[..i] == s;
    }
  }

  /**
   * A record is appended exactly when some entry before the first failing
   * enumeration call was read, passes `keep`, and yields that record.
   */
  lemma {:induction false} CollectMembership<K>(s: seq<Enumerated<K>>, keep: K -> bool, make: K -> GpuResult,
                                                g: GpuResult)
    ensures g in Collect(s, keep, make) <==>
      exists i :: 0 <= i < |s| && NoFailureBefore(s, i) && s[i].Read? && keep(s[i].item) && make(s[i].item) == g
  {
    if s != [] {
      var tail := s[1..];
      CollectMembership(tail, keep, make, g);
      if g in Collect(s, keep, make) {
        if s[0].Read? && keep(s[0].item) && make(s[0].item) == g {
          assert NoFailureBefore(s, 0);
        } else {
          assert !s[0].EnumFailed? && g in Collect(tail, keep, make);
          var i :| 0 <= i < |tail| && NoFailureBefore(tail, i) && tail[i].Read? && keep(tail[i].item)
                   && make(tail[i].item) == g;
          assert s[i + 1] == tail[i];
          assert NoFailureBefore(s, i + 1);
        }
      }
      if exists i :: 0 <= i < |s| && NoFailureBefore(s, i) && s[i].Read? && keep(s[i].item) && make(s[i].item) == g {
        var i :| 0 <= i < |s| && NoFailureBefore(s, i) && s[i].Read? && keep(s[i].item) && make(s[i].item) == g;
        if i > 0 {
          assert !s[0].EnumFailed?;
          assert tail[i - 1] == s[i];
          assert NoFailureBefore(tail, i - 1);
        }
      }
    }
  }

  // ---------------------------------------------------------------------------
  // Registry backend
  // ---------------------------------------------------------------------------

  /** A subkey is used only if its LastSeen reads and equals the DirectX key's, and SoftwareAdapter reads as 0. */
  predicate IsCurrentHardwareAdapter(lastSeen: uint64, key: AdapterKey) {
    key.lastSeen == Some(lastSeen) && key.softwareAdapter == Some(0)
  }

  function CurrentHardwareAdapter(lastSeen: uint64): AdapterKey -> bool {
    key => IsCurrentHardwareAdapter(lastSeen, key)
  }

  /** The record the registry backend appends for a subkey it uses. */
  function RegistryRecord(key: AdapterKey): (gpu: GpuResult)
    ensures SentinelsSet(gpu)
    ensures gpu.name == key.description.GetOr("")
    ensures gpu.vendor == if key.vendorId.Some? then VendorName(key.vendorId.value) else ""
    ensures gpu.gpuType == Unknown <==> key.dedicatedVideoMemory.None?
  {
    GpuResult(
      if key.vendorId.Some? then VendorName(key.vendorId.value) else "",
      key.description.GetOr(""),
      "",
      RegistryGpuType(key.dedicatedVideoMemory),
      None,
      None)
  }

  function RegistryRecords(lastSeen: uint64, subkeys: seq<Enumerated<AdapterKey>>): seq<GpuResult> {
    Collect(subkeys, CurrentHardwareAdapter(lastSeen), RegistryRecord)
  }

  const OpenDirectXFailed: string := "Open \"SOFTWARE\\Microsoft\\DirectX\" failed"
  const ReadLastSeenFailed: string := "Read \"SOFTWARE\\Microsoft\\DirectX\\LastSeen\" failed"

  /** What one backend leaves behind: its error, if any, and the records it appended. */
  datatype Detection = Detection(error: Option<string>, records: seq<GpuResult>)

  /** The registry backend: `directX` is None when SOFTWARE\Microsoft\DirectX cannot be opened. */
  function RegistryDetection(directX: Option<DirectXKey>): (d: Detection)
    ensures d.error.None? <==> directX.Some? && directX.value.lastSeen.Some?
    ensures d.error.Some? ==> d.records == []
  {
    match directX
    case None => Detection(Some(OpenDirectXFailed), [])
    case Some(key) =>
      match key.lastSeen
      case None => Detection(Some(ReadLastSeenFailed), [])
      case Some(lastSeen) => Detection(None, RegistryRecords(lastSeen, key.subkeys))
  }

  /** The registry backend appends a record exactly for each used subkey before the first failing enumeration. */
  lemma RegistryRecordsFilter(lastSeen: uint64, subkeys: seq<Enumerated<AdapterKey>>, gpu: GpuResult)
    ensures gpu in RegistryRecords(lastSeen, subkeys) <==>
      exists i :: 0 <= i < |subkeys| && NoFailureBefore(subkeys, i) && subkeys[i].Read?
        && IsCurrentHardwareAdapter(lastSeen, subkeys[i].item) && RegistryRecord(subkeys[i].item) == gpu
  {
    CollectMembership(subkeys, CurrentHardwareAdapter(lastSeen), RegistryRecord, gpu);
  }

  /** Every record of the registry backend has the unset sentinels and an empty driver. */
  lemma RegistryRecordsInitialised(lastSeen: uint64, subkeys: seq<Enumerated<AdapterKey>>)
    ensures forall gpu :: gpu in RegistryRecords(lastSeen, subkeys) ==> SentinelsSet(gpu)
  {
    forall gpu | gpu in RegistryRecords(lastSeen, subkeys)
      ensures SentinelsSet(gpu)
    {
      RegistryRecordsFilter(lastSeen, subkeys, gpu);
    }
  }

  /**
   * The registry loop: enumerate the subkeys of SOFTWARE\Microsoft\DirectX in
   * index order until the enumeration call fails, skip subkeys that do not open
   * or fail the filter, and append one record for each remaining subkey.
   */
  method DetectWithRegistry(gpus: ResultList<GpuResult>, directX: Option<DirectXKey>) returns (error: Option<string>)
    modifies gpus
    ensures error == RegistryDetection(directX).error
    ensures gpus.items == old(gpus.items) + RegistryDetection(directX).records
  {
    if directX.None? {
      return Some(OpenDirectXFailed);
    }
    var hKey := directX.value;
    if hKey.lastSeen.None? {
      return Some(ReadLastSeenFailed);
    }
    var lastSeen := hKey.lastSeen.value;
    var subkeys := hKey.subkeys;
    var index: nat := 0;
    while true
      invariant NoFailureBefore(subkeys, index)
      invariant gpus.items == old(gpus.items) + RegistryRecords(lastSeen, subkeys[..index])
      decreases |subkeys| - index
    {
      var entry := EnumAt(subkeys, index);
      if entry.EnumFailed? {
        break;
      }
      CollectStep(subkeys, index, CurrentHardwareAdapter(lastSeen), RegistryRecord);
      index := index + 1;

      if entry.ReadFailed? {
        continue;
      }
      var subKey := entry.item;
      if subKey.lastSeen.None? || lastSeen != subKey.lastSeen.value {
        continue;
      }
      if subKey.softwareAdapter.None? || subKey.softwareAdapter.value != 0 {
        continue;
      }

      var gpu := GpuResult("", "", "", Unknown, None, None);
      if subKey.description.Some? {
        gpu := gpu.(name := subKey.description.value);
      }
      if subKey.vendorId.Some? {
        gpu := gpu.(vendor := VendorName(subKey.vendorId.value));
      }
      if subKey.dedicatedVideoMemory.Some? {
        gpu := gpu.(gpuType := MemoryTier(subKey.dedicatedVideoMemory.value));
      }
      gpus.Add(gpu);
    }
    CollectStopsAtFailure(subkeys, index, CurrentHardwareAdapter(lastSeen), RegistryRecord);
    return None;
  }

  // ---------------------------------------------------------------------------
  // DXGI backend
  // ---------------------------------------------------------------------------

  /** An adapter is used unless DXGI_ADAPTER_FLAG_SOFTWARE is set. */
  predicate IsHardwareAdapter(desc: AdapterDesc) {
    desc.flags & DxgiAdapterFlagSoftware == 0
  }

  /** The record the DXGI backend appends for a hardware adapter. */
  function DxgiRecord(desc: AdapterDesc): (gpu: GpuResult)
    ensures SentinelsSet(gpu)
    ensures gpu.name == desc.description && gpu.vendor == VendorName(desc.vendorId)
    ensures gpu.gpuType != Unknown
    ensures gpu.gpuType == Discrete <==> desc.dedicatedVideoMemory as int >= 0x4000_0000
  {
    GpuResult(VendorName(desc.vendorId), desc.description, "", MemoryTier(desc.dedicatedVideoMemory), None, None)
  }

  function DxgiRecords(adapters: seq<Enumerated<AdapterDesc>>): seq<GpuResult> {
    Collect(adapters, IsHardwareAdapter, DxgiRecord)
  }

  const CreateFactoryFailed: string := "CreateDXGIFactory1() failed"

  /** The DXGI backend: `factory` is None when CreateDXGIFactory1 fails. */
  function DxgiDetection(factory: Option<DxgiFactory>): (d: Detection)
    ensures d.error.Some? <==> factory.None?
    ensures d.error.Some? ==> d.records == []
  {
    match factory
    case None => Detection(Some(CreateFactoryFailed), [])
    case Some(f) => Detection(None, DxgiRecords(f.adapters))
  }

  /** The DXGI backend appends a record exactly for each described hardware adapter before the first failing enumeration. */
  lemma DxgiRecordsFilter(adapters: seq<Enumerated<AdapterDesc>>, gpu: GpuResult)
    ensures gpu in DxgiRecords(adapters) <==>
      exists i :: 0 <= i < |adapters| && NoFailureBefore(adapters, i) && adapters[i].Read?
        && IsHardwareAdapter(adapters[i].item) && DxgiRecord(adapters[i].item) == gpu
  {
    CollectMembership(adapters, IsHardwareAdapter, DxgiRecord, gpu);
  }

  /** Every record of the DXGI backend has the unset sentinels, an empty driver and a known type. */
  lemma DxgiRecordsInitialised(adapters: seq<Enumerated<AdapterDesc>>)
    ensures forall gpu :: gpu in DxgiRecords(adapters) ==> SentinelsSet(gpu) && gpu.gpuType != Unknown
  {
    forall gpu | gpu in DxgiRecords(adapters)
      ensures SentinelsSet(gpu) && gpu.gpuType != Unknown
    {
      DxgiRecordsFilter(adapters, gpu);
    }
  }

  /**
   * The DXGI loop: enumerate the adapters in index order until EnumAdapters1
   * fails, skip adapters whose description cannot be read or that are software
   * adapters, and append one record for each remaining adapter.
   */
  method DetectWithDxgi(gpus: ResultList<GpuResult>, factory: Option<DxgiFactory>) returns (error: Option<string>)
    modifies gpus
    ensures error == DxgiDetection(factory).error
    ensures gpus.items == old(gpus.items) + DxgiDetection(factory).records
  {
    if factory.None? {
      return Some(CreateFactoryFailed);
    }
    var adapters := factory.value.adapters;
    var iAdapter: nat := 0;
    while true
      invariant NoFailureBefore(adapters, iAdapter)
      invariant gpus.items == old(gpus.items) + DxgiRecords(adapters[..iAdapter])
      decreases |adapters| - iAdapter
    {
      var adapter := EnumAt(adapters, iAdapter);
      if adapter.EnumFailed? {
        break;
      }
      CollectStep(adapters, iAdapter, IsHardwareAdapter, DxgiRecord);
      iAdapter := iAdapter + 1;

      if adapter.ReadFailed? || adapter.item.flags & DxgiAdapterFlagSoftware != 0 {
        continue;
      }
      var desc := adapter.item;
      var gpu := GpuResult(VendorName(desc.vendorId), desc.description, "", MemoryTier(desc.dedicatedVideoMemory), None, None);
      gpus.Add(gpu);
    }
    CollectStopsAtFailure(adapters, iAdapter, IsHardwareAdapter, DxgiRecord);
    return None;
  }

  // ---------------------------------------------------------------------------
  // Fallback
  // ---------------------------------------------------------------------------

  /** Registry first; DXGI only when the registry backend reports an error. */
  function GpuDetection(directX: Option<DirectXKey>, factory: Option<DxgiFactory>): (d: Detection)
    ensures d.error.None? <==> RegistryDetection(directX).error.None? || factory.Some?
    ensures d.error.Some? ==> d.records == []
  {
    var registry := RegistryDetection(directX);
    if registry.error.None? then registry else DxgiDetection(factory)
  }

  /** A successful registry backend decides the outcome, even with no records: DXGI is never consulted. */
  lemma RegistrySuccessSkipsDxgi(directX: Option<DirectXKey>, factory1: Option<DxgiFactory>, factory2: Option<DxgiFactory>)
    requires RegistryDetection(directX).error.None?
    ensures GpuDetection(directX, factory1) == GpuDetection(directX, factory2) == RegistryDetection(directX)
  {
  }

  /** After a registry error the outcome is DXGI's alone, with no trace of the registry. */
  lemma RegistryFailureFallsBackToDxgi(directX: Option<DirectXKey>, factory: Option<DxgiFactory>)
    requires RegistryDetection(directX).error.Some?
    ensures GpuDetection(directX, factory) == DxgiDetection(factory)
    ensures RegistryDetection(directX).records == []
  {
  }

  /** Whichever backend answers, every record it appended is fully initialised. */
  lemma DetectedRecordsInitialised(directX: Option<DirectXKey>, factory: Option<DxgiFactory>)
    ensures forall gpu :: gpu in GpuDetection(directX, factory).records ==> SentinelsSet(gpu)
  {
    if directX.Some? && directX.value.lastSeen.Some? {
      RegistryRecordsInitialised(directX.value.lastSeen.value, directX.value.subkeys);
    } else if factory.Some? {
      DxgiRecordsInitialised(factory.value.adapters);
    }
  }

  /** ffDetectGPUImpl: the registry backend, then DXGI if the registry backend failed. */
  method DetectGpuImpl(gpus: ResultList<GpuResult>, directX: Option<DirectXKey>, factory: Option<DxgiFactory>)
    returns (error: Option<string>)
    modifies gpus
    ensures error == GpuDetection(directX, factory).error
    ensures gpus.items == old(gpus.items) + GpuDetection(directX, factory).records
  {
    error := DetectWithRegistry(gpus, directX);
    if error.None? {
      return None;
    }
    error := DetectWithDxgi(gpus, factory);
  }
}
