/** Minting a lot and loading every lot record: the metadata document
    uploaded to IPFS, the gateway URL stored on the contract, and the
    decoding of the contract's lot tuples into the records the page shows. */
module Mint {
  import opened Common
  import Contract
  import ParkingSpace

  /** Every IPFS locator the client hands out is this prefix followed by the
      content path IPFS returned. */
  const GATEWAY: string := "https://parkingspace.infura-ipfs.io/ipfs/"

  /** The metadata document of a lot. It is uploaded as JSON with exactly
      these four fields; a fetched document is read for the first three. */
  datatype Metadata = Metadata(location: string, description: string, image: string, owner: Address)

  /** The IPFS client and the HTTP fetch of a gateway URL, as opaque
      functions: `None` where the call throws. */
  datatype Ipfs = Ipfs(
    addDocument: Metadata -> Option<string>,
    addFile: seq<bv8> -> Option<string>,
    fetch: string -> Option<Metadata>)

  function GatewayUrl(path: string): string {
    GATEWAY + path
  }

  /** The content path of a gateway URL; `None` for any other URL. */
  function ContentPath(url: string): (path: Option<string>)
    ensures path.Some? ==> GatewayUrl(path.value) == url
  {
    if |url| >= |GATEWAY| && url[..|GATEWAY|] == GATEWAY then
      assert GATEWAY + url[|GATEWAY|..] == url;
      Some(url[|GATEWAY|..])
    else None
  }

  /** Every content path survives the trip through its gateway URL. */
  lemma ContentPathOfGatewayUrl(path: string)
    ensures ContentPath(GatewayUrl(path)) == Some(path)
  {
    var url := GatewayUrl(path);
    assert url[..|GATEWAY|] == GATEWAY;
    assert url[|GATEWAY|..] == path;
  }

  /** What one run of `createNft` did. */
  datatype MintRun =
    | Rejected
    | Skipped
    | UploadFailed(document: Metadata)
    | Uploaded(document: Metadata, uri: string, tx: Option<Contract.Tx>)

  /** `createNft`: the whole body runs inside `performActions`, outside any
      try, so when `performActions` itself rejects (`actionsRun` false) the
      rejection reaches the caller. Otherwise nothing happens when the
      location, the description or the image locator is empty, and else the
      metadata document is uploaded and `createLot` is called with its
      gateway URL. Upload errors are logged and not rethrown. */
  function CreateNft(location: string, description: string, ipfsImage: string, account: Address,
                     actionsRun: bool, chain: Contract.Reads, ipfs: Ipfs): (run: MintRun)
    ensures run.Rejected? <==> !actionsRun
    ensures run.Skipped? <==> actionsRun && (location == [] || description == [] || ipfsImage == [])
    ensures run.UploadFailed? || run.Uploaded? ==> run.document == Metadata(location, description, ipfsImage, account)
    ensures run.UploadFailed? <==> actionsRun && !run.Skipped? && ipfs.addDocument(run.document).None?
    ensures run.Uploaded? ==> ContentPath(run.uri) == ipfs.addDocument(run.document)
    ensures run.Uploaded? ==> run.tx == ParkingSpace.CreateLot(account, run.uri, chain)
  {
    if !actionsRun then Rejected
    else if location == [] || description == [] || ipfsImage == [] then Skipped
    else
      var document := Metadata(location, description, ipfsImage, account);
      match ipfs.addDocument(document)
      case None => UploadFailed(document)
      case Some(path) =>
        var uri := GatewayUrl(path);
        ContentPathOfGatewayUrl(path);
        Uploaded(document, uri, ParkingSpace.CreateLot(account, uri, chain))
  }

  /** `uploadToIpfs`: no file selected or a failed upload yields nothing;
      otherwise the gateway URL of the uploaded file. */
  function UploadToIpfs(file: Option<seq<bv8>>, ipfs: Ipfs): (url: Option<string>)
    ensures url.Some? <==> file.Some? && ipfs.addFile(file.value).Some?
    ensures url.Some? ==> ContentPath(url.value) == ipfs.addFile(file.value)
  {
    match file
    case None => None
    case Some(bytes) =>
      match ipfs.addFile(bytes)
      case None => None
      case Some(path) =>
        ContentPathOfGatewayUrl(path);
        Some(GatewayUrl(path))
  }

  /** The three outcomes of `fetchNftMeta`: `null` for an empty URL, the
      fetched document, or `undefined` after a logged error. */
  datatype MetaResult = NoUrl | Fetched(doc: Metadata) | FetchFailed

  function FetchNftMeta(url: string, ipfs: Ipfs): (r: MetaResult)
    ensures r.NoUrl? <==> url == []
    ensures r.Fetched? <==> url != [] && ipfs.fetch(url).Some?
    ensures r.Fetched? ==> ipfs.fetch(url) == Some(r.doc)
  {
    if url == [] then NoUrl
    else
      match ipfs.fetch(url)
      case Some(doc) => Fetched(doc)
      case None => FetchFailed
  }

  /** A lot as the page holds it. */
  datatype LotRecord = LotRecord(
    index: nat,
    lender: Address,
    renter: Address,
    price: nat,
    rentPrice: nat,
    deposit: nat,
    returnDay: nat,
    rentTime: nat,
    status: int,
    location: string,
    image: string,
    description: string)

  /** The record built from tuple `t` and document `doc` for index `i`. */
  function Decode(i: nat, t: Contract.LotTuple, doc: Metadata): LotRecord {
    LotRecord(i, t.lender, t.renter, t.price, t.rentPrice, t.deposit, t.returnDay, t.rentTime, t.status,
              doc.location, doc.image, doc.description)
  }

  /** The promise `getNfts` creates for index `i`: `None` when it never
      resolves. The URI read, the metadata fetch (an empty URI gives `null`)
      and the lot read each make it throw inside the promise executor when
      they fail, and then `resolve` is never called. */
  function FetchRecord(chain: Contract.Reads, ipfs: Ipfs, i: nat): (r: Option<LotRecord>)
    ensures r.Some? <==> chain.tokenUri(i).Some? && FetchNftMeta(chain.tokenUri(i).value, ipfs).Fetched?
                         && chain.getLot(i).Some?
    ensures r.Some? ==> r.value.index == i
    ensures r.Some? ==> r.value == Decode(i, chain.getLot(i).value, FetchNftMeta(chain.tokenUri(i).value, ipfs).doc)
  {
    match chain.tokenUri(i)
    case None => None
    case Some(uri) =>
      match FetchNftMeta(uri, ipfs)
      case Fetched(doc) =>
        (match chain.getLot(i)
         case Some(t) => Some(Decode(i, t, doc))
         case None => None)
      case _ => None
  }

  /** The records of indexes 0..n-1 in index order, `None` if any of their
      promises never resolves. */
  function Records(chain: Contract.Reads, ipfs: Ipfs, n: nat): Option<seq<LotRecord>> {
    if n == 0 then Some([])
    else
      match (Records(chain, ipfs, n - 1), FetchRecord(chain, ipfs, n - 1))
      case (Some(rs), Some(r)) => Some(rs + [r])
      case _ => None
  }

  /** What `getNfts` produces: the record list, `undefined` when reading the
      lot count fails, or a promise that never settles. */
  datatype LoadOutcome = Loaded(records: seq<LotRecord>) | LoadFailed | NeverSettles

  function Load(chain: Contract.Reads, ipfs: Ipfs): LoadOutcome {
    match chain.lotCount
    case None => LoadFailed
    case Some(n) =>
      match Records(chain, ipfs, n)
      case Some(rs) => Loaded(rs)
      case None => NeverSettles
  }

  /** Loaded records are one per index, in index order, each the decoding of
      its own index's tuple and document. */
  lemma {:induction false} RecordsIndexed(chain: Contract.Reads, ipfs: Ipfs, n: nat, rs: seq<LotRecord>)
    requires Records(chain, ipfs, n) == Some(rs)
    ensures |rs| == n
    ensures forall k :: 0 <= k < n ==> rs[k].index == k && FetchRecord(chain, ipfs, k) == Some(rs[k])
  {
    if n > 0 {
      var prev := Records(chain, ipfs, n - 1);
      assert prev.Some?;
      RecordsIndexed(chain, ipfs, n - 1, prev.value);
      assert rs == prev.value + [FetchRecord(chain, ipfs, n - 1).value];
    }
  }

  /** The list is missing exactly when some index's promise never resolves. */
  lemma {:induction false} RecordsMissing(chain: Contract.Reads, ipfs: Ipfs, n: nat)
    ensures Records(chain, ipfs, n).None? <==> exists k :: 0 <= k < n && FetchRecord(chain, ipfs, k).None?
  {
    if n > 0 {
      RecordsMissing(chain, ipfs, n - 1);
      if Records(chain, ipfs, n).None? && FetchRecord(chain, ipfs, n - 1).Some? {
        assert Records(chain, ipfs, n - 1).None?;
      }
    }
  }

  /** A loaded list holds one record per lot, and the record at position k
      carries index k. */
  lemma LoadedIndexIsPosition(chain: Contract.Reads, ipfs: Ipfs)
    requires Load(chain, ipfs).Loaded?
    ensures |Load(chain, ipfs).records| == chain.lotCount.value
    ensures forall k :: 0 <= k < |Load(chain, ipfs).records| ==> Load(chain, ipfs).records[k].index == k
  {
    RecordsIndexed(chain, ipfs, chain.lotCount.value, Load(chain, ipfs).records);
  }

  /** `getNfts`: reads the lot count, then walks indexes 0..n-1 in order,
      pushing the promise of each record. */
  method GetNfts(chain: Contract.Reads, ipfs: Ipfs) returns (r: LoadOutcome)
    ensures r == Load(chain, ipfs)
    ensures r.Loaded? ==> |r.records| == chain.lotCount.value
    ensures r.Loaded? ==> forall k :: 0 <= k < |r.records| ==> r.records[k].index == k
  {
    if chain.lotCount.None? {
      return LoadFailed;
    }
    var n := chain.lotCount.value;
    var nfts: seq<LotRecord> := [];
    var settles := true;
    var i := 0;
    while i < n
      invariant 0 <= i <= n
      invariant settles ==> Records(chain, ipfs, i) == Some(nfts)
      invariant !settles ==> Records(chain, ipfs, i).None?
    {
      var nft := FetchRecord(chain, ipfs, i);
      if nft.Some? && settles {
        nfts := nfts + [nft.value];
      } else {
        settles := false;
      }
      i := i + 1;
    }
    if settles {
      r := Loaded(nfts);
      RecordsIndexed(chain, ipfs, n, nfts);
    } else {
      r := NeverSettles;
    }
  }
}
