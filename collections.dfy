/**
 * The three lists the dashboard keeps of the remote service's entities
 * (news articles, visitor questions, video entries), and the views it
 * derives from them: the Q&A status filter, the Q&A badges and the count
 * of active videos (AdminDashboard.js lines 127-129, 1080-1085, 1256).
 */
module Collections {
  import opened Outcomes

  /** A visitor question; `answer`, `answeredBy` and `answeredAt` stay None until it is answered. */
  datatype Question = Question(
    id: int, name: string, email: string, question: string,
    answer: Option<string>, answeredBy: Option<string>,
    status: string, createdAt: string, answeredAt: Option<string>)

  /** A video entry as listed by the service; `videoId` is the service's own key. */
  datatype Video = Video(
    videoId: int, youtubeId: string, title: string, description: string,
    displayOrder: int, isActive: bool)

  /** The new-video form, which has no service key yet. */
  datatype VideoForm = VideoForm(
    youtubeId: string, title: string, description: string,
    displayOrder: int, isActive: bool)

  /** The new-article form. */
  datatype ArticleDraft = ArticleDraft(
    title: string, excerpt: string, content: string, image: string,
    category: string, author: string)

  /** A news article as listed by the service. */
  datatype Article = Article(
    id: int, title: string, excerpt: string, content: string, image: string,
    category: string, author: string)

  const BlankVideoForm := VideoForm("", "", "", 0, true)
  const BlankArticle := ArticleDraft("", "", "", "", "General", "Admin")

  /** `a` can be obtained from `b` by deleting elements: order is kept. */
  predicate IsSubsequence<T(==)>(a: seq<T>, b: seq<T>)
    decreases |b|
  {
    a == [] || (b != [] && if a[0] == b[0] then IsSubsequence(a[1..], b[1..]) else IsSubsequence(a, b[1..]))
  }

  /** `questions.filter(q => q.status === status)`. */
  function WithStatus(qs: seq<Question>, status: string): (r: seq<Question>)
    ensures |r| <= |qs|
    ensures forall k :: 0 <= k < |r| ==> r[k].status == status
  {
    if qs == [] then []
    else (if qs[0].status == status then [qs[0]] else []) + WithStatus(qs[1..], status)
  }

  /** The filter keeps the questions it selects in their original order. */
  lemma {:induction false} WithStatusIsSubsequence(qs: seq<Question>, status: string)
    ensures IsSubsequence(WithStatus(qs, status), qs)
  {
    if qs != [] {
      WithStatusIsSubsequence(qs[1..], status);
      var rest := WithStatus(qs[1..], status);
      if qs[0].status == status {
        assert WithStatus(qs, status)[1..] == rest;
      } else {
        assert WithStatus(qs, status) == rest;
      }
    }
  }

  /**
   * The filter works element by element: the result for a list is the
   * results for its parts put together.
   */
  lemma {:induction false} WithStatusDistributes(a: seq<Question>, b: seq<Question>, status: string)
    ensures WithStatus(a + b, status) == WithStatus(a, status) + WithStatus(b, status)
    decreases |a|
  {
    if a == [] {
      assert a + b == b;
    } else {
      WithStatusDistributes(a[1..], b, status);
      assert (a + b)[0] == a[0];
      assert (a + b)[1..] == a[1..] + b;
      var head := if a[0].status == status then [a[0]] else [];
      calc {
        WithStatus(a + b, status);
        head + WithStatus(a[1..] + b, status);
        head + (WithStatus(a[1..], status) + WithStatus(b, status));
        (head + WithStatus(a[1..], status)) + WithStatus(b, status);
      }
    }
  }

  /** A single question is kept exactly when it has the status. */
  lemma WithStatusOfOne(q: Question, status: string)
    ensures WithStatus([q], status) == if q.status == status then [q] else []
  {
    assert [q][1..] == [];
  }

  /** Every question with the status is kept. */
  lemma {:induction false} WithStatusKeepsEveryMatch(qs: seq<Question>, status: string, i: nat)
    requires i < |qs| && qs[i].status == status
    ensures qs[i] in WithStatus(qs, status)
  {
    if i > 0 {
      WithStatusKeepsEveryMatch(qs[1..], status, i - 1);
    }
  }

  /** `filteredQuestions`: all of them for 'all', else those whose status is the filter. */
  function VisibleQuestions(qs: seq<Question>, filter: string): (r: seq<Question>)
    ensures filter == "all" ==> r == qs
    ensures filter != "all" ==> forall k :: 0 <= k < |r| ==> r[k].status == filter
    ensures filter != "all" ==> forall k :: 0 <= k < |qs| && qs[k].status == filter ==> qs[k] in r
  {
    if filter == "all" then qs
    else
      var r := WithStatus(qs, filter);
      assert forall k :: 0 <= k < |qs| && qs[k].status == filter ==> qs[k] in r by {
        forall k | 0 <= k < |qs| && qs[k].status == filter ensures qs[k] in r {
          WithStatusKeepsEveryMatch(qs, filter, k);
        }
      }
      r
  }

  /** The Pending badge. */
  function PendingCount(qs: seq<Question>): nat { |WithStatus(qs, "pending")| }

  /** The Answered badge. */
  function AnsweredCount(qs: seq<Question>): nat { |WithStatus(qs, "answered")| }

  /**
   * The badges never add up to more than Total, and they add up to exactly
   * Total when every question is either pending or answered.
   */
  lemma {:induction false} BadgesWithinTotal(qs: seq<Question>)
    ensures PendingCount(qs) + AnsweredCount(qs) <= |qs|
    ensures (forall k :: 0 <= k < |qs| ==> qs[k].status in {"pending", "answered"}) ==>
              PendingCount(qs) + AnsweredCount(qs) == |qs|
  {
    if qs != [] {
      BadgesWithinTotal(qs[1..]);
      if forall k :: 0 <= k < |qs| ==> qs[k].status in {"pending", "answered"} {
        assert forall k :: 0 <= k < |qs[1..]| ==> qs[1..][k].status in {"pending", "answered"} by {
          forall k | 0 <= k < |qs[1..]| ensures qs[1..][k].status in {"pending", "answered"} {
            assert qs[1..][k] == qs[k + 1];
          }
        }
      }
    }
  }

  /** `videos.filter(v => v.is_active)`. */
  function ActiveVideos(vs: seq<Video>): (r: seq<Video>)
    ensures |r| <= |vs|
    ensures forall k :: 0 <= k < |r| ==> r[k].isActive
  {
    if vs == [] then []
    else (if vs[0].isActive then [vs[0]] else []) + ActiveVideos(vs[1..])
  }

  /** The active filter keeps the videos it selects in their original order. */
  lemma {:induction false} ActiveVideosIsSubsequence(vs: seq<Video>)
    ensures IsSubsequence(ActiveVideos(vs), vs)
  {
    if vs != [] {
      ActiveVideosIsSubsequence(vs[1..]);
      var rest := ActiveVideos(vs[1..]);
      if vs[0].isActive {
        assert ActiveVideos(vs)[1..] == rest;
      } else {
        assert ActiveVideos(vs) == rest;
      }
    }
  }

  /** Every active video is kept. */
  lemma {:induction false} ActiveVideosKeepsEveryActive(vs: seq<Video>, i: nat)
    requires i < |vs| && vs[i].isActive
    ensures vs[i] in ActiveVideos(vs)
  {
    if i > 0 {
      ActiveVideosKeepsEveryActive(vs[1..], i - 1);
    }
  }

  /**
   * The active filter works element by element: the result for a list is
   * the results for its parts put together.
   */
  lemma {:induction false} ActiveVideosDistributes(a: seq<Video>, b: seq<Video>)
    ensures ActiveVideos(a + b) == ActiveVideos(a) + ActiveVideos(b)
    decreases |a|
  {
    if a == [] {
      assert a + b == b;
    } else {
      ActiveVideosDistributes(a[1..], b);
      assert (a + b)[0] == a[0];
      assert (a + b)[1..] == a[1..] + b;
      var head := if a[0].isActive then [a[0]] else [];
      calc {
        ActiveVideos(a + b);
        head + ActiveVideos(a[1..] + b);
        head + (ActiveVideos(a[1..]) + ActiveVideos(b));
        (head + ActiveVideos(a[1..])) + ActiveVideos(b);
      }
    }
  }

  /** A single video is kept exactly when it is active. */
  lemma ActiveVideosOfOne(v: Video)
    ensures ActiveVideos([v]) == if v.isActive then [v] else []
  {
    assert [v][1..] == [];
  }

  /** The number of active videos in a list. */
  function CountActive(vs: seq<Video>): nat
    decreases |vs|
  {
    if vs == [] then 0 else (if vs[|vs| - 1].isActive then 1 else 0) + CountActive(vs[..|vs| - 1])
  }

  /**
   * The Active badge is the number of active videos, counted from the end
   * of the list independently of the filter.
   */
  lemma {:induction false} ActiveBadgeCountsActive(vs: seq<Video>)
    ensures |ActiveVideos(vs)| == CountActive(vs)
    decreases |vs|
  {
    if vs != [] {
      var front := vs[..|vs| - 1];
      var last := vs[|vs| - 1];
      assert vs == front + [last];
      ActiveVideosDistributes(front, [last]);
      ActiveVideosOfOne(last);
      ActiveBadgeCountsActive(front);
    }
  }

  /** The Active badge equals Total exactly when every video is active. */
  lemma {:induction false} ActiveCountIsTotalIffAllActive(vs: seq<Video>)
    ensures |ActiveVideos(vs)| == |vs| <==> forall k :: 0 <= k < |vs| ==> vs[k].isActive
  {
    if vs != [] {
      ActiveCountIsTotalIffAllActive(vs[1..]);
      if forall k :: 0 <= k < |vs[1..]| ==> vs[1..][k].isActive {
        assert vs[0].isActive ==> forall k :: 0 <= k < |vs| ==> vs[k].isActive by {
          if vs[0].isActive {
            forall k | 0 <= k < |vs| ensures vs[k].isActive {
              if k > 0 { assert vs[k] == vs[1..][k - 1]; }
            }
          }
        }
      } else {
        var k :| 0 <= k < |vs[1..]| && !vs[1..][k].isActive;
        assert !vs[k + 1].isActive;
      }
    }
  }
}
