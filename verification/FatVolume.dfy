/**
 The mounted volume: the card, the shared sector buffer and the two-slot FAT cache, all updated
 in place, with the volume that the card holds as ghost state.
 */
module FatVolume {
  import opened Basics
  import opened FatLayout
  import opened FatView
  import opened FatInv

  const CACHE_SLOTS: nat := 2

  ghost predicate Copied(g: Geo, d: seq<Sector>, k: nat)
    requires g.AreaLba() <= |d| && k < g.fatSize
  {
    d[g.fatLba + g.fatSize + k] == d[g.fatLba + k]
  }

  /** The second FAT is a copy of the first. */
  ghost predicate FatsAgree(g: Geo, d: seq<Sector>)
    requires g.AreaLba() <= |d|
  {
    forall k :: 0 <= k < g.fatSize ==> Copied(g, d, k)
  }

  /** So it is, but for sector `but`. */
  ghost predicate FatsAgreeBut(g: Geo, d: seq<Sector>, but: nat)
    requires g.AreaLba() <= |d|
  {
    forall k :: 0 <= k < g.fatSize && k != but ==> Copied(g, d, k)
  }

  lemma AreaWriteAgrees(g: Geo, d: seq<Sector>, lba: nat, data: Sector)
    requires g.AreaLba() <= lba < |d| && FatsAgree(g, d)
    ensures FatsAgree(g, d[lba := data])
  {
    var after := d[lba := data];
    forall k | 0 <= k < g.fatSize ensures Copied(g, after, k) {
      assert Copied(g, d, k);
    }
  }

  lemma FirstWriteAgrees(g: Geo, d: seq<Sector>, k: nat, data: Sector)
    requires g.AreaLba() <= |d| && k < g.fatSize && FatsAgree(g, d)
    ensures FatsAgreeBut(g, d[g.fatLba + k := data], k)
  {
    var after := d[g.fatLba + k := data];
    forall j | 0 <= j < g.fatSize && j != k ensures Copied(g, after, j) {
      assert Copied(g, d, j);
    }
  }

  lemma MirrorAgrees(g: Geo, d: seq<Sector>, k: nat)
    requires g.AreaLba() <= |d| && k < g.fatSize && FatsAgreeBut(g, d, k)
    ensures FatsAgree(g, d[g.fatLba + g.fatSize + k := d[g.fatLba + k]])
  {
    var after := d[g.fatLba + g.fatSize + k := d[g.fatLba + k]];
    forall j | 0 <= j < g.fatSize ensures Copied(g, after, j) {
      if j != k { assert Copied(g, d, j); }
    }
  }

  class Volume {
    const g: Geo
    const card: array<Sector>          // the SD card, block by block
    const buf: array<byte>             // the shared sector buffer
    const cacheLba: array<nat>
    const cacheData: array<Sector>
    const cacheValid: array<bool>
    var cacheNext: nat                 // round-robin replacement

    ghost const mirrored: bool         // whether the two FATs agreed when the card was mounted
    ghost var vol: Vol                 // what the card holds
    ghost var hist: seq<Vol>           // what it held after each block write since mounting
    ghost var book: Book               // witnesses of the volume invariant

    ghost function Repr(): set<object> {
      {this} + Arrays()
    }

    /** What reading may overwrite: everything but the card. */
    ghost function Scratch(): set<object> {
      {buf as object, cacheLba, cacheData, cacheValid}
    }

    ghost function Arrays(): set<object> {
      {card as object, buf, cacheLba, cacheData, cacheValid}
    }

    /** Every valid cache slot holds a first-FAT sector exactly as the card does. */
    ghost predicate CacheOk()
      reads card, cacheLba, cacheData, cacheValid
      requires cacheLba.Length == cacheData.Length == cacheValid.Length == CACHE_SLOTS
      requires g.AreaLba() <= card.Length
    {
      forall i :: 0 <= i < CACHE_SLOTS && cacheValid[i] ==>
        g.fatLba <= cacheLba[i] < g.fatLba + g.fatSize && cacheData[i] == card[cacheLba[i]]
    }

    /** The two FATs agree whenever they did when the card was mounted. */
    ghost predicate Valid()
      reads this`vol, this`cacheNext, card, buf, cacheLba, cacheData, cacheValid
      ensures Valid() ==> g.Ok() && buf.Length == 512 && Shape(g, vol)
      ensures Valid() ==> this !in Arrays() && this !in Scratch()
    {
      Coherent() && (mirrored ==> FatsAgree(g, card[..]))
    }

    /** The state while a FAT entry is being written: nothing is asked of the second FAT. */
    ghost predicate Coherent()
      reads this`vol, this`cacheNext, card, buf, cacheLba, cacheData, cacheValid
    {
      && g.Ok()
      && g.AreaLba() + g.AreaSize() <= card.Length
      && buf.Length == 512
      && cacheLba.Length == cacheData.Length == cacheValid.Length == CACHE_SLOTS
      && cacheNext < CACHE_SLOTS
      && card != cacheData
      && vol == View(g, card[..])
      && CacheOk()
    }

    /** Mounting with the geometry read from the boot sector: the cache starts empty. */
    constructor (geo: Geo, sd: array<Sector>, ghost b: Book)
      requires geo.Ok() && geo.AreaLba() + geo.AreaSize() <= sd.Length
      ensures Valid() && fresh(Repr() - {card}) && card == sd && g == geo
      ensures vol == View(geo, sd[..]) && hist == [] && book == b && mirrored == FatsAgree(geo, sd[..])
    {
      g := geo;
      card := sd;
      buf := new byte[512](_ => 0);
      cacheLba := new nat[CACHE_SLOTS](_ => 0);
      cacheData := new Sector[CACHE_SLOTS](_ => seq(512, _ => 0));
      cacheValid := new bool[CACHE_SLOTS](_ => false);
      cacheNext := 0;
      vol := View(geo, sd[..]);
      mirrored := FatsAgree(geo, sd[..]);
      hist := [];
      book := b;
    }

    /** Records new witnesses of the volume invariant; nothing on the card changes. */
    ghost method SetBook(b: Book)
      requires Valid()
      modifies this`book
      ensures Valid() && book == b && vol == old(vol) && hist == old(hist)
    {
      book := b;
    }

    // ----- blocks and the shared buffer -----

    method ReadSector(lba: nat)
      requires Valid() && lba < g.AreaLba() + g.AreaSize()
      modifies buf
      ensures Valid() && buf[..] == card[lba]
      ensures lba >= g.AreaLba() ==> buf[..] == vol.area[lba - g.AreaLba()]
    {
      SdReadBlock(lba);
    }

    method SdReadBlock(lba: nat)
      requires Coherent() && lba < g.AreaLba() + g.AreaSize()
      modifies buf
      ensures Coherent() && buf[..] == card[lba]
    {
      var data := card[lba];
      for i := 0 to 512
        invariant Coherent() && data == card[lba]
        invariant forall j :: 0 <= j < i ==> buf[j] == data[j]
      {
        buf[i] := data[i];
      }
      assert buf[..] == data;
    }

    /** One block write: the only way the card changes, and a point at which power may fail. */
    method SdWriteBlock(lba: nat, data: Sector)
      requires g.Ok() && g.AreaLba() + g.AreaSize() <= card.Length && lba < card.Length
      modifies card, this`vol, this`hist
      ensures card[..] == old(card[..])[lba := data]
      ensures vol == View(g, card[..]) && hist == old(hist) + [vol]
    {
      card[lba] := data;
      vol := View(g, card[..]);
      hist := hist + [vol];
    }

    /** Writes the buffer to a block of the root/data area. */
    method WriteSector(lba: nat)
      requires Valid() && g.AreaLba() <= lba < g.AreaLba() + g.AreaSize()
      modifies card, this`vol, this`hist
      ensures Valid()
      ensures vol == old(vol).(area := old(vol).area[lba - g.AreaLba() := buf[..]])
      ensures hist == old(hist) + [vol]
    {
      hide FatsAgree;
      if mirrored { AreaWriteAgrees(g, card[..], lba, buf[..]); }
      ViewAreaWrite(g, card[..], lba - g.AreaLba(), buf[..]);
      SdWriteBlock(lba, buf[..]);
    }

    method CopyIn(at: nat, b: seq<byte>)
      requires Valid() && at + |b| <= 512
      modifies buf
      ensures Valid() && buf[..] == Patch(old(buf[..]), at, b)
    {
      for i := 0 to |b|
        invariant Valid()
        invariant forall j :: 0 <= j < 512 ==>
          buf[j] == if at <= j < at + i then b[j - at] else old(buf[j])
      {
        buf[at + i] := b[i];
      }
    }

    method ClearBuffer()
      requires Valid()
      modifies buf
      ensures Valid() && buf[..] == seq(512, _ => 0)
    {
      for i := 0 to 512
        invariant Valid()
        invariant forall j :: 0 <= j < i ==> buf[j] == 0
      {
        buf[i] := 0;
      }
    }

    // ----- the FAT, read through the cache -----

    method InvalidateCache()
      requires Valid()
      modifies cacheValid
      ensures Valid() && forall i :: 0 <= i < CACHE_SLOTS ==> !cacheValid[i]
    {
      for i := 0 to CACHE_SLOTS
        invariant Valid() && forall j :: 0 <= j < i ==> !cacheValid[j]
      {
        cacheValid[i] := false;
      }
    }

    /** A first-FAT sector, from the cache when it is there: always what the card holds. */
    method ReadFatSector(lba: nat) returns (s: Sector)
      requires Valid() && g.fatLba <= lba < g.fatLba + g.fatSize
      modifies cacheLba, cacheData, cacheValid, this`cacheNext
      ensures Valid() && s == card[lba]
    {
      for i := 0 to CACHE_SLOTS {
        if cacheValid[i] && cacheLba[i] == lba {
          return cacheData[i];
        }
      }
      var slot := cacheNext;
      cacheNext := (cacheNext + 1) % CACHE_SLOTS;
      cacheData[slot] := card[lba];
      cacheLba[slot] := lba;
      cacheValid[slot] := true;
      s := cacheData[slot];
    }

    lemma EntryOnCard(c: nat)
      requires Valid() && c < g.Entries()
      ensures c / g.PerSec() < g.fatSize && g.fatLba + c / g.PerSec() < card.Length && c < |vol.fat|
      ensures vol.fat[c] == EntryIn(g, card[g.fatLba + c / g.PerSec()], c % g.PerSec()) && card != cacheData
    {
      FatSectorInRange(g, c);
      ViewEntry(g, card[..], c);
    }

    /** The FAT entry of a cluster: exactly what a direct decode of the card's first FAT gives. */
    method FatEntry(c: nat) returns (e: nat)
      requires Valid() && c < g.Entries()
      modifies cacheLba, cacheData, cacheValid, this`cacheNext
      ensures Valid() && e == vol.fat[c]
    {
      hide Valid, View, FatSector;
      EntryOffset(g, c);
      EntryOnCard(c);
      if g.fat32 {
        var offset := c * 4;
        var s := ReadFatSector(g.fatLba + offset / 512);
        var idx := offset % 512;
        var w := s[idx] as int + 0x100 * s[idx + 1] as int + 0x1_0000 * s[idx + 2] as int
                 + 0x100_0000 * s[idx + 3] as int;
        e := w % 0x1000_0000;
      } else {
        var offset := c * 2;
        var s := ReadFatSector(g.fatLba + offset / 512);
        var idx := offset % 512;
        e := s[idx] as int + 0x100 * s[idx + 1] as int;
      }
    }

    /** Reads first-FAT sector `k` into the buffer, where its entries can be decoded one by one. */
    method ReadFat(k: nat)
      requires Valid() && k < g.fatSize
      modifies buf
      ensures Valid()
      ensures forall i :: 0 <= i < g.PerSec() ==>
        k * g.PerSec() + i < |vol.fat| && EntryIn(g, buf[..], i) == vol.fat[k * g.PerSec() + i]
    {
      ReadSector(g.fatLba + k);
      forall i | 0 <= i < g.PerSec()
        ensures k * g.PerSec() + i < |vol.fat| && EntryIn(g, buf[..], i) == vol.fat[k * g.PerSec() + i]
      {
        SectorEntries(g, card[..], k, i);
      }
    }

    /** Puts the new value of entry `c` into the buffer, which holds that entry's FAT sector. */
    method PatchEntry(c: nat, value: nat)
      requires Valid() && c < g.Entries() && buf[..] == FatSector(g, card[..], c)
      modifies buf
      ensures Valid() && buf[..] == PutEntry(g, FatSector(g, card[..], c), c % g.PerSec(), value)
    {
      ghost var s: Sector := buf[..];
      EntryOffset(g, c);
      if g.fat32 {
        var idx := c * 4 % 512;
        var was := Le32(buf[..], idx);
        CopyIn(idx, Bytes32(value % 0x1000_0000 + was / 0x1000_0000 * 0x1000_0000));
      } else {
        var idx := c * 2 % 512;
        CopyIn(idx, Bytes16(value % 0x1_0000));
      }
    }

    /** First half of setting a FAT entry: read the entry's sector, patch it, write it back. */
    method StoreEntry(c: nat, value: nat)
      requires Valid() && c < g.Entries() && forall i :: 0 <= i < CACHE_SLOTS ==> !cacheValid[i]
      modifies buf, card, this`vol, this`hist
      ensures Coherent() && vol == old(vol).(fat := old(vol).fat[c := Stored(g, value)])
      ensures hist == old(hist) + [vol] && c / g.PerSec() < g.fatSize
      ensures card[..] == old(card[..])[g.fatLba + c / g.PerSec() := card[g.fatLba + c / g.PerSec()]]
      ensures mirrored ==> FatsAgreeBut(g, card[..], c / g.PerSec())
    {
      hide FatsAgree, FatsAgreeBut, View, PutEntry, Stored;
      FatSectorInRange(g, c);
      var lba := g.fatLba + c / g.PerSec();
      ReadSector(lba);
      PatchEntry(c, value);
      ViewFatWrite(g, card[..], c, value);
      if mirrored { FirstWriteAgrees(g, card[..], c / g.PerSec(), buf[..]); }
      SdWriteBlock(lba, buf[..]);
    }

    /** Second half: the sector is re-read and written to the second FAT, which nobody reads. */
    method MirrorSector(k: nat)
      requires Coherent() && k < g.fatSize && forall i :: 0 <= i < CACHE_SLOTS ==> !cacheValid[i]
      requires mirrored ==> FatsAgreeBut(g, card[..], k)
      modifies buf, card, this`vol, this`hist
      ensures Valid() && vol == old(vol) && hist == old(hist) + [vol]
      ensures card[..] == old(card[..])[g.fatLba + g.fatSize + k := card[g.fatLba + k]]
    {
      hide FatsAgree, FatsAgreeBut;
      if mirrored { MirrorAgrees(g, card[..], k); }
      SdReadBlock(g.fatLba + k);
      ViewMirrorWrite(g, card[..], k, buf[..]);
      SdWriteBlock(g.fatLba + k + g.fatSize, buf[..]);
    }

    /**
     Sets one FAT entry on the card. The volume changes in that entry alone, with the first of two
     block writes; the second leaves both copies of the sector equal.
     */
    method WriteFatEntry(c: nat, value: nat)
      requires Valid() && c < g.Entries()
      modifies buf, card, cacheValid, this`vol, this`hist
      ensures Valid() && vol == old(vol).(fat := old(vol).fat[c := Stored(g, value)])
      ensures hist == old(hist) + [vol, vol]
      ensures var lba := g.fatLba + c / g.PerSec();
        lba + g.fatSize < card.Length && card[lba + g.fatSize] == card[lba]
        && forall i :: 0 <= i < card.Length && i != lba && i != lba + g.fatSize ==> card[i] == old(card[i])
    {
      InvalidateCache();
      StoreEntry(c, value);
      ghost var d := card[..];
      MirrorSector(c / g.PerSec());
      assert forall i :: 0 <= i < card.Length && i != g.fatLba + c / g.PerSec() + g.fatSize ==> card[i] == d[i];
      assert hist == old(hist) + [vol] + [vol];
    }
  }
}
