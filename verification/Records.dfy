/** DNS record sets, changes and the name of a request file (src/dns/mod.rs). */
module Records {
  import opened Addresses

  type U32 = n: nat | n < 0x1_0000_0000

  datatype RecordType = TypeA | TypeAAAA {
    function Show(): string { if TypeA? then "A" else "AAAA" }
  }

  datatype RecordData = A(v4: seq<V4>) | AAAA(v6: seq<V6>) {
    function RecordType(): RecordType { if A? then TypeA else TypeAAAA }
  }

  datatype ResourceRecordSet = ResourceRecordSet(name: string, ttl: U32, data: RecordData)

  /** A change within a batch; `Upsert` is the only action there is. */
  datatype Change = Upsert(recordSet: ResourceRecordSet)

  const DDNS_JSON_FILE_EXT := ".ddns.json"

  function MakeFilename(r: ResourceRecordSet): string {
    r.name + DDNS_JSON_FILE_EXT
  }
}
