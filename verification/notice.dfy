/** The plain-text notification listing the free slots. */
module Notice {
  import opened Seqs
  import opened Text
  import opened Parse

  /** The first line of the notification. */
  function Header(date: string): string
  {
    "Found the following free slots on " + date + ":"
  }

  /** One slot's part of the notification. */
  function Block(slot: Slot): string
  {
    "Time: " + slot.time + "\nLink: " + slot.link
  }

  /** The notification body: the header, a newline, then the slots' blocks
      joined by newlines. With at least one slot that is the header followed
      by one `Time:`/`Link:` pair per slot, in slot order, and nothing after
      the last link: no trailing newline. */
  function Message(date: string, slots: seq<Slot>): (r: string)
    ensures |slots| > 0 ==> r == "Found the following free slots on " + date + ":" + Listing(slots)
  {
    var body := Header(date) + "\n" + Join("\n", Map(Block, slots));
    assert |slots| > 0 ==> body == Header(date) + Listing(slots) by {
      if |slots| > 0 {
        JoinedBlocks(slots);
        assert body == Header(date) + ("\n" + Join("\n", Map(Block, slots)));
      }
    }
    body
  }

  /** Reference layout: each slot, in order, contributes its own line pair
      `\nTime: <time>\nLink: <link>` and nothing else. */
  function Listing(slots: seq<Slot>): string
  {
    if |slots| == 0 then ""
    else "\nTime: " + slots[0].time + "\nLink: " + slots[0].link + Listing(slots[1..])
  }

  /** The blocks joined by newlines, behind one more newline, are the
      reference listing. */
  lemma {:induction false} JoinedBlocks(slots: seq<Slot>)
    requires |slots| > 0
    ensures "\n" + Join("\n", Map(Block, slots)) == Listing(slots)
  {
    var blocks := Map(Block, slots);
    var first := "\nTime: " + slots[0].time + "\nLink: " + slots[0].link;
    assert "\n" + Block(slots[0]) == first;
    if |slots| == 1 {
      assert Listing(slots[1..]) == "";
      assert Join("\n", blocks) == Block(slots[0]);
    } else {
      assert blocks[1..] == Map(Block, slots[1..]);
      JoinedBlocks(slots[1..]);
      assert Join("\n", blocks) == Block(slots[0]) + "\n" + Join("\n", blocks[1..]);
      assert "\n" + Join("\n", blocks) == ("\n" + Block(slots[0])) + ("\n" + Join("\n", blocks[1..]));
    }
  }

  /** The listing of a longer slot list ends with the new slot's pair. */
  lemma {:induction false} ListingSnoc(slots: seq<Slot>, slot: Slot)
    ensures Listing(slots + [slot]) == Listing(slots) + "\nTime: " + slot.time + "\nLink: " + slot.link
  {
    if |slots| == 0 {
      assert slots + [slot] == [slot];
    } else {
      assert (slots + [slot])[1..] == slots[1..] + [slot];
      ListingSnoc(slots[1..], slot);
    }
  }

  /** A further slot adds exactly its own block at the end of the message. */
  lemma AppendSlot(date: string, slots: seq<Slot>, slot: Slot)
    requires |slots| > 0
    ensures Message(date, slots + [slot]) == Message(date, slots) + "\nTime: " + slot.time + "\nLink: " + slot.link
  {
    ListingSnoc(slots, slot);
  }
}
