/** Integration constants: defaults, line terminators and the table of the
    mixer's eight inputs with its name-to-index inverse. */
module Constants {
  import opened Text

  const Domain: string := "audac_mtx"
  const DefaultPort: int := 5001
  const DefaultHost: string := "192.168.1.100"
  const DefaultZones: int := 4

  /** Destination token of every frame (fixed by the protocol) and the
      client's own source token (at most four characters). */
  const DefaultDeviceId: string := "X001"
  const DefaultSourceId: string := "HA"

  /** Terminator the hub waits for when reading (bytes) and appends when
      writing (text). */
  const RecvEol: seq<byte> := [13, 10]
  const SendEol: string := "\r\n"

  /** Input index -> display name; 0 ("no source") has no entry. */
  const SupportedSources: map<int, string> := map[
    1 := "Mic 1",
    2 := "Mic 2",
    3 := "Line 3",
    4 := "Line 4",
    5 := "Line 5",
    6 := "Line 6",
    7 := "WLI/MWX65",
    8 := "WMI"
  ]

  /** The largest index among 1..k whose name in table is n, or 0 if none
      is: the entry a dict comprehension over the table keeps for n, since
      a later key overwrites an earlier one. */
  function LastIndexOf(table: map<int, string>, n: string, k: int): (r: int)
    requires 0 <= k && forall i :: 1 <= i <= k ==> i in table
    ensures 0 <= r <= k
    ensures r != 0 ==> table[r] == n && forall j :: r < j <= k ==> table[j] != n
    ensures r == 0 ==> forall j :: 1 <= j <= k ==> table[j] != n
  {
    if k == 0 then 0 else if table[k] == n then k else LastIndexOf(table, n, k - 1)
  }

  /** The inverse table {name: index for index, name in table}. */
  const FriendlyToIndex: map<string, int> :=
    map n | n in SupportedSources.Values :: LastIndexOf(SupportedSources, n, 8)

  /** list(SUPPORTED_SOURCES.values()): the names in key order. */
  const SourceList: seq<string> := seq(8, i requires 0 <= i < 8 => SupportedSources[i + 1])

  /** The bytes of an ASCII text. */
  function AsciiBytes(s: string): (b: seq<byte>)
    requires forall i :: 0 <= i < |s| ==> (s[i] as int) < 128
    ensures |b| == |s| && forall i :: 0 <= i < |s| ==> b[i] as int == s[i] as int
  {
    seq(|s|, i requires 0 <= i < |s| => s[i] as int as byte)
  }

  /** What is sent ends in the terminator the reader waits for; the default
      source token fits the protocol's four characters. */
  lemma TerminatorsAgree()
    ensures AsciiBytes(SendEol) == RecvEol
    ensures |DefaultSourceId| <= 4 && |DefaultDeviceId| == 4
  {
  }

  /** The table's keys are exactly the inputs 1..8, so index 0 has no name. */
  lemma SupportedSourcesKeys()
    ensures forall k :: k in SupportedSources <==> 1 <= k <= 8
  {
  }

  /** The eight names are pairwise distinct. */
  lemma SourceNamesDistinct()
    ensures forall j, k :: j in SupportedSources && k in SupportedSources && j != k ==>
      SupportedSources[j] != SupportedSources[k]
  {
  }

  /** The inverse table at one index: the name there maps back to it. */
  lemma InverseAt(k: int)
    requires k in SupportedSources
    ensures SupportedSources[k] in FriendlyToIndex && FriendlyToIndex[SupportedSources[k]] == k
  {
    SupportedSourcesKeys();
    SourceNamesDistinct();
    assert SupportedSources[k] in SupportedSources.Values;
  }

  /** The inverse table at one name: its index is in 1..8 and names it. */
  lemma IndexOfNameKnown(n: string)
    requires n in FriendlyToIndex
    ensures 1 <= FriendlyToIndex[n] <= 8 && FriendlyToIndex[n] in SupportedSources
    ensures SupportedSources[FriendlyToIndex[n]] == n
  {
    var j :| j in SupportedSources && SupportedSources[j] == n;
    InverseAt(j);
    SupportedSourcesKeys();
  }

  /** FriendlyToIndex is a true inverse of SupportedSources, in both
      directions, and every index it yields is 1..8, hence truthy. */
  lemma FriendlyToIndexInverse()
    ensures FriendlyToIndex.Keys == SupportedSources.Values
    ensures forall k :: k in SupportedSources ==>
      SupportedSources[k] in FriendlyToIndex && FriendlyToIndex[SupportedSources[k]] == k
    ensures forall n :: n in FriendlyToIndex ==>
      FriendlyToIndex[n] in SupportedSources && SupportedSources[FriendlyToIndex[n]] == n
    ensures forall n :: n in FriendlyToIndex ==> 1 <= FriendlyToIndex[n] <= 8
  {
    forall k | k in SupportedSources
      ensures SupportedSources[k] in FriendlyToIndex && FriendlyToIndex[SupportedSources[k]] == k
    {
      InverseAt(k);
    }
    forall n | n in FriendlyToIndex
      ensures FriendlyToIndex[n] in SupportedSources && SupportedSources[FriendlyToIndex[n]] == n
      ensures 1 <= FriendlyToIndex[n] <= 8
    {
      IndexOfNameKnown(n);
    }
  }

  /** The source list's entries, in index order. */
  lemma SourceListEntries()
    ensures |SourceList| == 8
    ensures forall i :: 0 <= i < 8 ==> SourceList[i] == SupportedSources[i + 1]
  {
  }

  /** Every name in the table is in the source list. */
  lemma NameListed(k: int)
    requires k in SupportedSources
    ensures SupportedSources[k] in SourceList
  {
    SupportedSourcesKeys();
    assert SourceList[k - 1] == SupportedSources[k];
  }

  /** Every name the inverse table knows is in the source list. */
  lemma ListedNameKnown(n: string)
    requires n in FriendlyToIndex
    ensures n in SourceList
  {
    IndexOfNameKnown(n);
    NameListed(FriendlyToIndex[n]);
  }

  /** Every name in the source list is known to the inverse table. */
  lemma ListedNameInTable(n: string)
    requires n in SourceList
    ensures n in FriendlyToIndex
  {
    SourceListEntries();
    var i :| 0 <= i < 8 && SourceList[i] == n;
    SupportedSourcesKeys();
    InverseAt(i + 1);
  }

  /** No name appears twice in the source list. */
  lemma SourceListDistinct()
    ensures forall i, j :: 0 <= i < j < |SourceList| ==> SourceList[i] != SourceList[j]
  {
    SourceListEntries();
    SupportedSourcesKeys();
    SourceNamesDistinct();
  }

  /** The source list holds every name once, in index order. */
  lemma SourceListEnumerates()
    ensures |SourceList| == 8
    ensures forall i :: 0 <= i < 8 ==> SourceList[i] == SupportedSources[i + 1]
    ensures forall i, j :: 0 <= i < j < |SourceList| ==> SourceList[i] != SourceList[j]
    ensures forall n :: n in SourceList <==> n in FriendlyToIndex
  {
    SourceListEntries();
    SourceListDistinct();
    forall n | n in FriendlyToIndex ensures n in SourceList {
      ListedNameKnown(n);
    }
    forall n | n in SourceList ensures n in FriendlyToIndex {
      ListedNameInTable(n);
    }
  }
}
