/**
 * Client code over the store's contracts alone: end-to-end runs of the
 * store, each proved for concrete inputs.
 */
module Scenarios {
  import opened Wrappers
  import opened Stream
  import opened Store

  /** Four chunks of 250 bytes under a declared length of 1000. */
  method QuarterChunks()
  {
    var store := new BlobStore();
    var quarter: Chunk := seq(250, _ => 0);
    var reply := Response(Some("1000"), Body([quarter, quarter, quarter, quarter], Complete));
    var result, reports, trace := store.Fetch("a", "https://example.org/a", reply, true);
    assert [quarter, quarter, quarter, quarter][..3] == [quarter, quarter, quarter];
    assert [quarter, quarter, quarter][..2] == [quarter, quarter];
    assert [quarter, quarter][..1] == [quarter];
    assert TotalLength([quarter]) == 250 && TotalLength([quarter, quarter]) == 500;
    assert TotalLength([quarter, quarter, quarter]) == 750;
    assert TotalLength([quarter, quarter, quarter, quarter]) == 1000;
    assert [quarter][..0] == [];
    assert ProgressTrace([quarter], "1000") == [Progress(250, "1000")];
    assert ProgressTrace([quarter, quarter], "1000") == [Progress(250, "1000"), Progress(500, "1000")];
    assert ProgressTrace([quarter, quarter, quarter], "1000") ==
           [Progress(250, "1000"), Progress(500, "1000"), Progress(750, "1000")];
    assert reports == [Progress(250, "1000"), Progress(500, "1000"), Progress(750, "1000"), Progress(1000, "1000")];
    assert result.Some? && |result.value.blob| == 1000;
    assert !store.downloading && store.error == None;
  }

  /** A reply without a length header leaves the stored record as it was. */
  method MissingHeaderKeepsOld(payload: seq<byte>)
  {
    var store := new BlobStore();
    var added := store.Add("a", payload);
    var reply := Response(None, Body([[1, 2, 3]], Complete));
    var result, reports, trace := store.Fetch("a", "https://example.org/a", reply, true);
    assert result == None && reports == [];
    assert store.error.Some? && store.error.value != "";
    assert !store.downloading;
    var entry := store.Get("a");
    assert entry == Some(Entry("a", payload));
  }

  /** An empty header counts as missing; the text "0" passes the check. */
  method HeaderTruthiness()
  {
    var store := new BlobStore();
    var result, reports, trace := store.Fetch("a", "https://example.org/a", Response(Some(""), Body([], Complete)), false);
    assert result == None && store.error.Some?;
    result, reports, trace := store.Fetch("a", "https://example.org/a", Response(Some("0"), Body([], Complete)), false);
    assert result == Some(Entry("a", [])) && store.error == None;
  }

  /** A body that breaks off after the delete loses the old record. */
  method BrokenBodyLosesOld(payload: seq<byte>)
  {
    var store := new BlobStore();
    var added := store.Add("a", payload);
    var kept := store.Add("b", payload);
    var reply := Response(Some("6"), Body([[1, 2, 3]], Broken("network error")));
    var result, reports, trace := store.Fetch("a", "https://example.org/a", reply, true);
    assert result == None && store.error == Some("network error");
    assert reports == [Progress(3, "6")];
    var present := store.Has("a");
    assert !present;
    var other := store.Get("b");
    assert other == Some(Entry("b", payload));
  }

  /** Fewer bytes than declared still count as a complete download. */
  method ShortBodyAccepted()
  {
    var store := new BlobStore();
    var reply := Response(Some("10"), Body([[7, 7, 7, 7, 7]], Complete));
    var result, reports, trace := store.Fetch("a", "https://example.org/a", reply, true);
    assert reports == [Progress(5, "10")];
    assert Concat([[7, 7, 7, 7, 7]]) == [7, 7, 7, 7, 7];
    assert result == Some(Entry("a", [7, 7, 7, 7, 7]));
  }

  /** A second download of the same key replaces the first one outright. */
  method SecondFetchSupersedes()
  {
    var store := new BlobStore();
    var first := Response(Some("4"), Body([[1, 1], [1, 1]], Complete));
    var second := Response(Some("1"), Body([[2]], Complete));
    var result, reports, trace := store.Fetch("a", "https://example.org/1", first, false);
    assert [[1, 1], [1, 1]][..1] == [[1, 1]];
    assert Concat([[1, 1]]) == [1, 1];
    assert Concat([[1, 1], [1, 1]]) == [1, 1, 1, 1];
    assert result == Some(Entry("a", [1, 1, 1, 1]));
    result, reports, trace := store.Fetch("a", "https://example.org/2", second, false);
    assert Concat([[2]]) == [2];
    assert result == Some(Entry("a", [2]));
  }

  /** Deleting twice, or deleting an absent key, succeeds and changes nothing further. */
  method DeleteTwice(payload: seq<byte>)
  {
    var store := new BlobStore();
    var added := store.Add("a", payload);
    var ok := store.Delete("a");
    var once := store.db;
    var again := store.Delete("a");
    assert ok && again && store.db == once == map[];
    var absent := store.Delete("b");
    assert absent && store.db == map[];
  }

  /** `add` refuses a key that is already present and keeps the old record. */
  method AddRefusesDuplicate(payload: seq<byte>, other: seq<byte>)
  {
    var store := new BlobStore();
    var first := store.Add("a", payload);
    var second := store.Add("a", other);
    assert first == Ok("a") && second == Err(DuplicateKey);
    var entry := store.Get("a");
    assert entry == Some(Entry("a", payload));
  }
}
