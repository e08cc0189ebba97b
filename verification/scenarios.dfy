/**
 The seeded app end to end: what the screen shows after `init`, what a tap on a
 seeded row does, and one session of callbacks and button presses.
 */
module Scenarios {
  import opened Options
  import opened VideoItems
  import opened Media
  import opened PlayerViewModel
  import opened PlayerScreen

  /**
   The screen after `init`: no spinner, the title "Bunny", and, since the three Bunny
   entries are equal data-class values, all three of them drawn as playing.
   */
  lemma InitialScreen(p: Player)
    ensures !Render(Init(p)).spinner
    ensures Render(Init(p)).title == Some("Bunny")
    ensures |Render(Init(p)).rows| == 6
    ensures forall k :: 0 <= k < 6 ==> (Render(Init(p)).rows[k].isCurrentPlaying <==> k % 2 == 0)
  {
    var s := Init(p);
    assert Fun != Bunny by { assert Fun.name != Bunny.name; }
  }

  /** In the seeded list every tap on a row draws that row, and its twins, as playing. */
  lemma TapSeededRow(p: Player, k: nat)
    requires k < 6
    ensures Render(TapRow(Init(p), k)).rows[k].isCurrentPlaying
    ensures forall i :: 0 <= i < 6 ==>
      (Render(TapRow(Init(p), k)).rows[i].isCurrentPlaying <==> i % 2 == k % 2)
  {
    var s := Init(p);
    SeedUrisDiffer();
    assert Fun != Bunny by { assert Fun.name != Bunny.name; }
    var uri := s.videos[k].contentUri;
    assert FirstMatch(s.videos, uri, k % 2);
    var r := TapRow(s, k);
    assert r.currentVideo == Some(s.videos[k % 2]);
    var screen := Render(r);
    forall i | 0 <= i < 6
      ensures screen.rows[i].isCurrentPlaying <==> i % 2 == k % 2
    {
      assert screen.rows[i].isCurrentPlaying <==> s.videos[k % 2] == s.videos[i];
    }
  }

  /**
   A session on a fresh player: buffering then ready, the second clip is
   pressed, its transition shows the title, and a tick at 250 ms hides it.
   */
  lemma Session()
    ensures var s0 := Init(EmptyPlayer);
            var s1 := Step(s0, PlaybackStateChanged(StateBuffering));
            var s2 := Step(s1, PlaybackStateChanged(StateReady));
            var s3 := PressButton(s2, PlaySecondClip);
            var s4 := Step(s3, MediaItemTransition(Some(FromUri(FunUri)), 1));
            var s5 := Step(s4, Events(250));
            && s1.isPlayerLoading && !s2.isPlayerLoading
            && s3.currentVideo == Some(Fun) && s3.player.active == Some(FromUri(FunUri))
            && s4.visibleTitle && Render(s4).title == Some("Some Random Stuff")
            && !s5.visibleTitle && Render(s5).title == None
  {
    var s0 := Init(EmptyPlayer);
    var s1 := Step(s0, PlaybackStateChanged(StateBuffering));
    var s2 := Step(s1, PlaybackStateChanged(StateReady));
    assert s1.isPlayerLoading && !s2.isPlayerLoading;
    assert s2.videos == s0.videos && s0.videos[1] == Fun;
    SeedUrisDiffer();
    assert FirstMatch(s2.videos, FunUri, 1);
    var s3 := PressButton(s2, PlaySecondClip);
    assert s3.currentVideo == Some(Fun);
    var s4 := Step(s3, MediaItemTransition(Some(FromUri(FunUri)), 1));
    assert s4.visibleTitle && s4.currentVideo == Some(Fun);
    assert Render(s4).title == Some(Fun.name);
    var s5 := Step(s4, Events(250));
    assert !s5.visibleTitle;
  }

  /** The two seeded URIs differ (only one of them is served over TLS). */
  lemma SeedUrisDiffer()
    ensures BunnyUri != FunUri
  {
    assert |BunnyUri| != |FunUri|;
  }

}
