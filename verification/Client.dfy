/** What the client writes: the record, the signed upload and its object key (src/client.rs). */
module Client {
  import opened Wrappers
  import opened Text
  import opened Addresses
  import opened Records
  import Domain

  datatype IpAddr = IPv4(v4: V4) | IPv6(v6: V6)

  const DEFAULT_TTL: U32 := 300

  /** The TTL is configured in whole seconds and cast to 32 bits. */
  function BuildRecord(domain: string, ttl: Option<nat>, ip: IpAddr): ResourceRecordSet {
    ResourceRecordSet(domain, if ttl.Some? then ttl.value % 0x1_0000_0000 else DEFAULT_TTL,
                      if ip.IPv4? then A([ip.v4]) else AAAA([ip.v6]))
  }

  function ObjectKey(directory: string, record: ResourceRecordSet): string {
    directory + "/" + MakeFilename(record)
  }

  /** The domain that an object key of this directory names. */
  function DomainOfKey(directory: string, key: string): string {
    var front, back := |directory| + 1, |DDNS_JSON_FILE_EXT|;
    if front + back <= |key| then key[front..|key| - back] else ""
  }

  /** Client keys are made of the directory and the domain, pass the server's suffix filter and give the domain back. */
  lemma KeyNamesDomain(directory: string, record: ResourceRecordSet)
    ensures ObjectKey(directory, record) == directory + "/" + record.name + ".ddns.json"
    ensures EndsWith(ObjectKey(directory, record), ".ddns.json")
    ensures DomainOfKey(directory, ObjectKey(directory, record)) == record.name
  {
    var key := ObjectKey(directory, record);
    assert key == directory + "/" + record.name + DDNS_JSON_FILE_EXT;
    assert key[|key| - |DDNS_JSON_FILE_EXT|..] == DDNS_JSON_FILE_EXT;
  }

  lemma SameNameSameKey(directory: string, r: ResourceRecordSet, r': ResourceRecordSet)
    ensures r.name == r'.name ==> ObjectKey(directory, r) == ObjectKey(directory, r')
  {
  }

  /** Two spellings share an object key exactly when they are the same domain after trimming and lowercasing. */
  lemma KeysCollide(lower: string -> string, directory: string, text: string, text': string,
                    ttl: Option<nat>, ttl': Option<nat>, ip: IpAddr, ip': IpAddr)
    requires Domain.Parse(lower, text).Name? && Domain.Parse(lower, text').Name?
    ensures var d, d' := Domain.Parse(lower, text).inner, Domain.Parse(lower, text').inner;
      ObjectKey(directory, BuildRecord(d, ttl, ip)) == ObjectKey(directory, BuildRecord(d', ttl', ip'))
      <==> lower(Trim(text)) == lower(Trim(text'))
  {
    hide Domain.Parse, Trim, ObjectKey, DomainOfKey, EndsWith;
    Domain.ParseExact(lower, text);
    Domain.ParseExact(lower, text');
    SameNameSameKey(directory, BuildRecord(Domain.Parse(lower, text).inner, ttl, ip),
                    BuildRecord(Domain.Parse(lower, text').inner, ttl', ip'));
    KeyNamesDomain(directory, BuildRecord(Domain.Parse(lower, text).inner, ttl, ip));
    KeyNamesDomain(directory, BuildRecord(Domain.Parse(lower, text').inner, ttl', ip'));
  }
}
