/** The values that travel between deriving and writing host DNS
    (internal/hostdns/hostdns.go:17-32, internal/platform/scutil.go:47-52). */
module Specs {
  import opened Text

  /** An IPv4 resolver address, as the 32-bit number it is computed as, and its port. */
  datatype AddrPort = AddrPort(addr: nat, port: nat)

  datatype Spec = Spec(listen: AddrPort, searchDomains: seq<string>, matchDomains: seq<string>)

  /** One dynamic-store key to write. */
  datatype DNSKey = DNSKey(key: string, domains: seq<string>, noSearch: bool)

  /** A domain that stays one word on a script line. */
  predicate CleanWord(d: string) {
    d != "" && NoSpace(d)
  }

  predicate CleanWords(ds: seq<string>) {
    forall i :: 0 <= i < |ds| ==> CleanWord(ds[i])
  }

  predicate CleanSpec(spec: Spec) {
    && CleanWords(spec.searchDomains)
    && CleanWords(spec.matchDomains)
    && spec.listen.addr < 0x1_0000_0000
  }

  predicate LowerCase(ds: seq<string>) {
    forall i :: 0 <= i < |ds| ==> ToLower(ds[i]) == ds[i]
  }

  /** Every domain of a registration is in lower case. */
  predicate LowerSpec(spec: Spec) {
    LowerCase(spec.searchDomains) && LowerCase(spec.matchDomains)
  }

  /** Every domain of a registration fits on one line. */
  predicate OneLineSpec(spec: Spec) {
    AllFree(spec.searchDomains, '\n') && AllFree(spec.matchDomains, '\n')
  }
}
