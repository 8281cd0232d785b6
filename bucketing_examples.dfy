/**
 * The two worked examples of `bucketer` with the default threshold 2: three paths that do
 * not collide, and a collision that raises the threshold to 3 for every later path.
 */
module BucketingExamples {
  import opened Wrappers
  import opened Strings
  import opened JsonValues
  import opened Bucketing

  /** A segment with no `/`, no `:` and no braces. */
  predicate Plain(s: string)
  {
    forall k :: 0 <= k < |s| ==> s[k] != '/' && s[k] != ':' && s[k] != '{' && s[k] != '}'
  }

  lemma PlainNormalised(s: string)
    requires Plain(s)
    ensures NormaliseSegment(s) == s
  {
    NormaliseNoColon(s);
    StripBracesFixed(s);
  }

  /** A path joined from segments without `/` splits back into them, each one normalised. */
  lemma SegmentsOfJoin(parts: seq<string>, out: seq<string>)
    requires |parts| >= 1 && |out| == |parts|
    requires forall i, k :: 0 <= i < |parts| && 0 <= k < |parts[i]| ==> parts[i][k] != '/'
    requires forall i :: 0 <= i < |parts| ==> NormaliseSegment(parts[i]) == out[i]
    ensures Segments(Join(parts, "/")) == out
  {
    SplitJoin(parts, '/');
  }

  /** A path joined from plain segments has exactly those segments. */
  lemma PlainSegments(parts: seq<string>)
    requires |parts| >= 1 && forall i :: 0 <= i < |parts| ==> Plain(parts[i])
    ensures Segments(Join(parts, "/")) == parts
  {
    forall i | 0 <= i < |parts| ensures NormaliseSegment(parts[i]) == parts[i] {
      PlainNormalised(parts[i]);
    }
    SegmentsOfJoin(parts, parts);
  }

  /** Every example path starts with the segments `""`, `api` and `v1`. */
  lemma ApiJoin(rest: seq<string>, text: string)
    requires |rest| > 0 && Join(rest, "/") == text
    ensures Join(["", "api", "v1"] + rest, "/") == "/api/v1/" + text
  {
    var r2 := ["v1"] + rest;
    JoinCons("v1", rest);
    var r1 := ["api"] + r2;
    JoinCons("api", r2);
    JoinCons("", r1);
    assert ["", "api", "v1"] + rest == [""] + r1;
    ApiText(text);
  }

  lemma JoinCons(head: string, tail: seq<string>)
    requires |tail| > 0
    ensures Join([head] + tail, "/") == head + "/" + Join(tail, "/")
  {
    assert ([head] + tail)[1..] == tail;
  }

  lemma ApiText(text: string)
    ensures "" + "/" + ("api" + "/" + ("v1" + "/" + text)) == "/api/v1/" + text
  {
    var joined := "" + "/" + ("api" + "/" + ("v1" + "/" + text));
    forall k | 0 <= k < |joined| ensures joined[k] == ("/api/v1/" + text)[k] {
      if k >= 8 {
        assert joined[k] == text[k - 8];
      }
    }
  }

  /** A bucket name that is not yet taken stops the collision loop at once. */
  lemma FreshName(bs: Buckets, parts: seq<string>, t: nat)
    requires |parts| > 3 && !HasKey(bs, BucketName(parts, t))
    ensures Resolve(bs, parts, t) == (BucketName(parts, t), t)
  {
    ResolveStop(bs, parts, t);
  }

  // Example 1: /api/v1/users, /api/v1/users/{id} and /api/v1/orders with threshold 2.

  lemma UsersPath()
    ensures "/api/v1/users" == Join(["", "api", "v1", "users"], "/")
    ensures forall i :: 0 <= i < 4 ==> Plain(["", "api", "v1", "users"][i])
    ensures BucketName(["", "api", "v1", "users"], 2) == "users"
  {
  }

  lemma UsersSegments()
    ensures Segments("/api/v1/users") == ["", "api", "v1", "users"]
  {
    UsersPath();
    PlainSegments(["", "api", "v1", "users"]);
  }

  lemma UserIdPath()
    ensures "/api/v1/users/{id}" == Join(["", "api", "v1", "users", "{id}"], "/")
    ensures forall i, k :: 0 <= i < 5 && 0 <= k < |["", "api", "v1", "users", "{id}"][i]| ==>
      ["", "api", "v1", "users", "{id}"][i][k] != '/'
  {
    UserIdJoin();
    var parts := ["", "api", "v1", "users", "{id}"];
    forall i, k | 0 <= i < 5 && 0 <= k < |parts[i]| ensures parts[i][k] != '/' {
      if i == 4 {
        assert parts[i] == "{id}";
      } else {
        assert parts[i] in ["", "api", "v1", "users"];
      }
    }
  }

  lemma UserIdJoin()
    ensures "/api/v1/users/{id}" == Join(["", "api", "v1", "users", "{id}"], "/")
  {
    ApiJoin(["users", "{id}"], "users/{id}");
    forall k | 0 <= k < |"/api/v1/users/{id}"| ensures "/api/v1/users/{id}"[k] == ("/api/v1/" + "users/{id}")[k] { }
    assert ["", "api", "v1"] + ["users", "{id}"] == ["", "api", "v1", "users", "{id}"];
  }

  lemma UserIdName()
    ensures BucketName(["", "api", "v1", "users", "id"], 2) == "users_id"
  {
    assert ["", "api", "v1", "users", "id"][3..5] == ["users", "id"];
    assert Join(["users", "id"], "_") == "users" + "_" + "id";
  }

  lemma UserIdNormalised(parts: seq<string>, out: seq<string>)
    requires parts == ["", "api", "v1", "users", "{id}"] && out == ["", "api", "v1", "users", "id"]
    ensures forall i :: 0 <= i < 5 ==> NormaliseSegment(parts[i]) == out[i]
  {
    assert forall i :: 0 <= i < 4 ==> Plain(parts[i]) && parts[i] == out[i];
    forall i | 0 <= i < 4 ensures NormaliseSegment(parts[i]) == out[i] {
      PlainNormalised(parts[i]);
    }
    NormaliseTemplate();
  }

  lemma UserIdSegments()
    ensures Segments("/api/v1/users/{id}") == ["", "api", "v1", "users", "id"]
  {
    UserIdPath();
    UserIdNormalised(["", "api", "v1", "users", "{id}"], ["", "api", "v1", "users", "id"]);
    SegmentsOfJoin(["", "api", "v1", "users", "{id}"], ["", "api", "v1", "users", "id"]);
  }

  lemma OrdersPath()
    ensures "/api/v1/orders" == Join(["", "api", "v1", "orders"], "/")
    ensures forall i :: 0 <= i < 4 ==> Plain(["", "api", "v1", "orders"][i])
    ensures BucketName(["", "api", "v1", "orders"], 2) == "orders"
  {
  }

  lemma OrdersSegments()
    ensures Segments("/api/v1/orders") == ["", "api", "v1", "orders"]
  {
    OrdersPath();
    PlainSegments(["", "api", "v1", "orders"]);
  }

  /** A path whose name at threshold `t` is not yet taken starts a bucket of its own. */
  lemma FreshStep(bs: Buckets, t: nat, ps: Dict<Json>, n: string)
    requires ps != [] && |Segments(ps[0].0)| > 3 && BucketName(Segments(ps[0].0), t) == n
    requires forall i :: 0 <= i < |bs| ==> bs[i].0 != n
    ensures BucketFrom(bs, t, ps) == BucketFrom(bs + [(n, [ps[0]])], t, ps[1..])
  {
    assert !HasKey(bs, n);
    FreshName(bs, Segments(ps[0].0), t);
    BucketFromPlaced(bs, t, ps, n, t);
  }

  /** The first path of a pass starts the first bucket. */
  lemma FirstFresh(ps: Dict<Json>, t: nat, n: string)
    requires ps != [] && |Segments(ps[0].0)| > 3 && BucketName(Segments(ps[0].0), t) == n
    ensures BucketFrom([], t, ps) == BucketFrom([(n, [ps[0]])], t, ps[1..])
  {
    FreshStep([], t, ps, n);
    assert [] + [(n, [ps[0]])] == [(n, [ps[0]])];
  }

  /** A second path whose name differs from the first bucket's starts a bucket of its own. */
  lemma SecondFresh(e1: (string, Dict<Json>), ps: Dict<Json>, t: nat, n: string)
    requires ps != [] && |Segments(ps[0].0)| > 3 && BucketName(Segments(ps[0].0), t) == n && e1.0 != n
    ensures BucketFrom([e1], t, ps) == BucketFrom([e1, (n, [ps[0]])], t, ps[1..])
  {
    FreshStep([e1], t, ps, n);
    Pair(e1, (n, [ps[0]]));
  }

  /** A last path whose name differs from both existing buckets appends its bucket and ends the pass. */
  lemma LastFresh(e1: (string, Dict<Json>), e2: (string, Dict<Json>), ps: Dict<Json>, t: nat, n: string)
    requires |ps| == 1 && |Segments(ps[0].0)| > 3 && BucketName(Segments(ps[0].0), t) == n
    requires e1.0 != n && e2.0 != n
    ensures BucketFrom([e1, e2], t, ps) == Ok(([e1, e2, (n, [ps[0]])], t))
  {
    FreshStep([e1, e2], t, ps, n);
    assert ps[1..] == [];
    Snoc2(e1, e2, (n, [ps[0]]));
  }

  lemma Snoc2<T>(a: T, b: T, c: T)
    ensures [a, b] + [c] == [a, b, c]
  {
  }

  lemma Pair<T>(a: T, b: T)
    ensures [a] + [b] == [a, b]
  {
  }

  /**
   * Three paths whose names at the threshold are distinct: each one starts a bucket of its own
   * and the threshold never moves.
   */
  lemma ThreeFreshPass(ps: Dict<Json>, t: nat, n1: string, n2: string, n3: string)
    requires |ps| == 3 && |Segments(ps[0].0)| > 3 && |Segments(ps[1].0)| > 3 && |Segments(ps[2].0)| > 3
    requires BucketName(Segments(ps[0].0), t) == n1 && BucketName(Segments(ps[1].0), t) == n2
    requires BucketName(Segments(ps[2].0), t) == n3
    requires n1 != n2 && n1 != n3 && n2 != n3
    ensures BucketFrom([], t, ps) == Ok(([(n1, [ps[0]]), (n2, [ps[1]]), (n3, [ps[2]])], t))
  {
    var e1, e2 := (n1, [ps[0]]), (n2, [ps[1]]);
    FirstFresh(ps, t, n1);
    SecondFresh(e1, ps[1..], t, n2);
    LastFresh(e1, e2, ps[1..][1..], t, n3);
  }

  /**
   * Example 1: with threshold 2, `/api/v1/users` goes to `users`, `/api/v1/users/{id}` to
   * `users_id` and `/api/v1/orders` to `orders`, and the threshold stays 2.
   */
  lemma NoCollision(m1: Json, m2: Json, m3: Json)
    ensures BucketFrom([], 2, [("/api/v1/users", m1), ("/api/v1/users/{id}", m2), ("/api/v1/orders", m3)])
      == Ok(([("users", [("/api/v1/users", m1)]), ("users_id", [("/api/v1/users/{id}", m2)]),
              ("orders", [("/api/v1/orders", m3)])], 2))
  {
    UsersSegments();
    UsersPath();
    UserIdSegments();
    UserIdName();
    OrdersSegments();
    OrdersPath();
    ThreeFreshPass([("/api/v1/users", m1), ("/api/v1/users/{id}", m2), ("/api/v1/orders", m3)], 2, "users", "users_id", "orders");
  }

  // Example 2: a collision that raises the threshold for every later path.

  /** A path whose bucket exists and still has room joins it, after its one entry. */
  lemma JoinBucket(n: string, x: (string, Json), ps: Dict<Json>, t: nat)
    requires t >= 2 && ps != [] && |Segments(ps[0].0)| > 3 && BucketName(Segments(ps[0].0), t) == n
    requires x.0 != ps[0].0
    ensures BucketFrom([(n, [x])], t, ps) == BucketFrom([(n, [x, ps[0]])], t, ps[1..])
  {
    var bs: Buckets := [(n, [x])];
    ResolveStop(bs, Segments(ps[0].0), t);
    BucketFromPlaced(bs, t, ps, n, t);
    assert Insert(bs, n, ps[0].0, ps[0].1) == Set(bs, n, Set([x], ps[0].0, ps[0].1));
    SetAfter(x, ps[0].0, ps[0].1);
    SetOnly(n, [x], [x, ps[0]]);
  }

  /** A full bucket moves the collision loop on by one turn, to a name that is not taken. */
  lemma CollideOnce(e: (string, Dict<Json>), parts: seq<string>, t: nat, n: string)
    requires |parts| > 3 && BucketName(parts, t) == e.0 && |e.1| >= t
    requires BucketName(parts, t + 1) == n && n != e.0
    ensures Resolve([e], parts, t) == (n, t + 1)
  {
    assert Keys([e]) == [e.0];
    ResolveNext([e], parts, t);
    FreshName([e], parts, t + 1);
  }

  /**
   * A path whose bucket is full moves the threshold up by one; when the longer name is new, the
   * path starts that bucket.
   */
  lemma Collide(e: (string, Dict<Json>), ps: Dict<Json>, t: nat, n: string)
    requires ps != [] && |Segments(ps[0].0)| > 3 && BucketName(Segments(ps[0].0), t) == e.0
    requires |e.1| >= t && BucketName(Segments(ps[0].0), t + 1) == n && n != e.0
    ensures BucketFrom([e], t, ps) == BucketFrom([e, (n, [ps[0]])], t + 1, ps[1..])
  {
    CollideOnce(e, Segments(ps[0].0), t, n);
    BucketFromPlaced([e], t, ps, n, t + 1);
    Pair(e, (n, [ps[0]]));
  }

  /**
   * Two paths that share a bucket, a third whose name at the threshold is that bucket's and
   * whose longer name is new, and a fourth whose name at the raised threshold is new: the third
   * raises the threshold once and the fourth is named at the raised threshold.
   */
  lemma CollisionPass(ps: Dict<Json>, t: nat, n1: string, n3: string, n4: string)
    requires t == 2 && |ps| == 4 && ps[0].0 != ps[1].0
    requires |Segments(ps[0].0)| > 3 && |Segments(ps[1].0)| > 3
    requires |Segments(ps[2].0)| > 3 && |Segments(ps[3].0)| > 3
    requires BucketName(Segments(ps[0].0), t) == n1 && BucketName(Segments(ps[1].0), t) == n1
    requires BucketName(Segments(ps[2].0), t) == n1 && BucketName(Segments(ps[2].0), t + 1) == n3
    requires BucketName(Segments(ps[3].0), t + 1) == n4
    requires n1 != n3 && n1 != n4 && n3 != n4
    ensures BucketFrom([], t, ps) == Ok(([(n1, [ps[0], ps[1]]), (n3, [ps[2]]), (n4, [ps[3]])], t + 1))
  {
    FirstFresh(ps, t, n1);
    JoinBucket(n1, ps[0], ps[1..], t);
    Collide((n1, [ps[0], ps[1]]), ps[1..][1..], t, n3);
    LastFresh((n1, [ps[0], ps[1]]), (n3, [ps[2]]), ps[1..][1..][1..], t + 1, n4);
  }

  /** `path_parts[3:5]` joined with `_`. */
  lemma NameOfTwo(parts: seq<string>)
    requires |parts| >= 5
    ensures BucketName(parts, 2) == parts[3] + "_" + parts[4]
  {
    var s := parts[3..5];
    assert s == [parts[3], parts[4]] && s[1..] == [parts[4]];
    assert Join(s[1..], "_") == parts[4];
    assert BucketName(parts, 2) == Join(s, "_");
  }

  /** `path_parts[3:6]` joined with `_`. */
  lemma NameOfThree(parts: seq<string>)
    requires |parts| >= 6
    ensures BucketName(parts, 3) == parts[3] + "_" + parts[4] + "_" + parts[5]
  {
    var s := parts[3..6];
    assert s == [parts[3], parts[4], parts[5]];
    assert s[1..] == [parts[4], parts[5]];
    assert s[1..][1..] == [parts[5]];
    assert Join(s[1..], "_") == parts[4] + "_" + parts[5];
    assert BucketName(parts, 3) == Join(s, "_");
  }

  lemma ABPath()
    ensures "/api/v1/a/b" == Join(["", "api", "v1", "a", "b"], "/")
    ensures forall i :: 0 <= i < 5 ==> Plain(["", "api", "v1", "a", "b"][i])
    ensures BucketName(["", "api", "v1", "a", "b"], 2) == "a_b"
  {
    ApiJoin(["a", "b"], "a/b");
    forall k | 0 <= k < |"/api/v1/a/b"| ensures "/api/v1/a/b"[k] == ("/api/v1/" + "a/b")[k] { }
    assert ["", "api", "v1"] + ["a", "b"] == ["", "api", "v1", "a", "b"];
    NameOfTwo(["", "api", "v1", "a", "b"]);
  }

  lemma ABCPath()
    ensures "/api/v1/a/b/c" == Join(["", "api", "v1", "a", "b", "c"], "/")
    ensures forall i :: 0 <= i < 6 ==> Plain(["", "api", "v1", "a", "b", "c"][i])
    ensures BucketName(["", "api", "v1", "a", "b", "c"], 2) == "a_b"
  {
    ApiJoin(["a", "b", "c"], "a/b/c");
    forall k | 0 <= k < |"/api/v1/a/b/c"| ensures "/api/v1/a/b/c"[k] == ("/api/v1/" + "a/b/c")[k] { }
    assert ["", "api", "v1"] + ["a", "b", "c"] == ["", "api", "v1", "a", "b", "c"];
    NameOfTwo(["", "api", "v1", "a", "b", "c"]);
  }

  lemma ABDPath()
    ensures "/api/v1/a/b/d" == Join(["", "api", "v1", "a", "b", "d"], "/")
    ensures forall i :: 0 <= i < 6 ==> Plain(["", "api", "v1", "a", "b", "d"][i])
    ensures BucketName(["", "api", "v1", "a", "b", "d"], 2) == "a_b"
    ensures BucketName(["", "api", "v1", "a", "b", "d"], 3) == "a_b_d"
  {
    ApiJoin(["a", "b", "d"], "a/b/d");
    forall k | 0 <= k < |"/api/v1/a/b/d"| ensures "/api/v1/a/b/d"[k] == ("/api/v1/" + "a/b/d")[k] { }
    assert ["", "api", "v1"] + ["a", "b", "d"] == ["", "api", "v1", "a", "b", "d"];
    NameOfTwo(["", "api", "v1", "a", "b", "d"]);
    NameOfThree(["", "api", "v1", "a", "b", "d"]);
  }

  lemma XYZPath()
    ensures "/api/v1/x/y/z" == Join(["", "api", "v1", "x", "y", "z"], "/")
    ensures forall i :: 0 <= i < 6 ==> Plain(["", "api", "v1", "x", "y", "z"][i])
    ensures BucketName(["", "api", "v1", "x", "y", "z"], 3) == "x_y_z"
  {
    ApiJoin(["x", "y", "z"], "x/y/z");
    forall k | 0 <= k < |"/api/v1/x/y/z"| ensures "/api/v1/x/y/z"[k] == ("/api/v1/" + "x/y/z")[k] { }
    assert ["", "api", "v1"] + ["x", "y", "z"] == ["", "api", "v1", "x", "y", "z"];
    NameOfThree(["", "api", "v1", "x", "y", "z"]);
  }

  lemma ABSegments()
    ensures Segments("/api/v1/a/b") == ["", "api", "v1", "a", "b"]
  {
    ABPath();
    PlainSegments(["", "api", "v1", "a", "b"]);
  }

  lemma ABCSegments()
    ensures Segments("/api/v1/a/b/c") == ["", "api", "v1", "a", "b", "c"]
  {
    ABCPath();
    PlainSegments(["", "api", "v1", "a", "b", "c"]);
  }

  lemma ABDSegments()
    ensures Segments("/api/v1/a/b/d") == ["", "api", "v1", "a", "b", "d"]
  {
    ABDPath();
    PlainSegments(["", "api", "v1", "a", "b", "d"]);
  }

  lemma XYZSegments()
    ensures Segments("/api/v1/x/y/z") == ["", "api", "v1", "x", "y", "z"]
  {
    XYZPath();
    PlainSegments(["", "api", "v1", "x", "y", "z"]);
  }

  /**
   * Example 2: with threshold 2, `/api/v1/a/b` and `/api/v1/a/b/c` fill bucket `a_b`;
   * `/api/v1/a/b/d` finds it full, raises the threshold to 3 and starts `a_b_d`; and a later
   * `/api/v1/x/y/z` is named with three parts, `x_y_z`, not `x_y`.
   */
  lemma WithCollision(m1: Json, m2: Json, m3: Json, m4: Json)
    ensures BucketFrom([], 2, [("/api/v1/a/b", m1), ("/api/v1/a/b/c", m2), ("/api/v1/a/b/d", m3), ("/api/v1/x/y/z", m4)])
      == Ok(([("a_b", [("/api/v1/a/b", m1), ("/api/v1/a/b/c", m2)]), ("a_b_d", [("/api/v1/a/b/d", m3)]),
              ("x_y_z", [("/api/v1/x/y/z", m4)])], 3))
  {
    ABNames();
    ABCNames();
    ABDNames();
    XYZNames();
    assert "a_b" != "a_b_d" && "a_b" != "x_y_z" && "a_b_d" != "x_y_z" by {
      assert |"a_b"| != |"a_b_d"| && "a_b"[0] != "x_y_z"[0] && "a_b_d"[0] != "x_y_z"[0];
    }
    assert "/api/v1/a/b" != "/api/v1/a/b/c" by {
      assert |"/api/v1/a/b"| != |"/api/v1/a/b/c"|;
    }
    CollisionOfPaths("/api/v1/a/b", "/api/v1/a/b/c", "/api/v1/a/b/d", "/api/v1/x/y/z", m1, m2, m3, m4,
                     "a_b", "a_b_d", "x_y_z");
  }

  /** `CollisionPass` for four named paths. */
  lemma CollisionOfPaths(p1: string, p2: string, p3: string, p4: string, m1: Json, m2: Json, m3: Json, m4: Json,
                         n1: string, n3: string, n4: string)
    requires p1 != p2
    requires |Segments(p1)| > 3 && |Segments(p2)| > 3 && |Segments(p3)| > 3 && |Segments(p4)| > 3
    requires BucketName(Segments(p1), 2) == n1 && BucketName(Segments(p2), 2) == n1
    requires BucketName(Segments(p3), 2) == n1 && BucketName(Segments(p3), 3) == n3
    requires BucketName(Segments(p4), 3) == n4
    requires n1 != n3 && n1 != n4 && n3 != n4
    ensures BucketFrom([], 2, [(p1, m1), (p2, m2), (p3, m3), (p4, m4)]) == Ok(([(n1, [(p1, m1), (p2, m2)]), (n3, [(p3, m3)]), (n4, [(p4, m4)])], 3))
  {
    CollisionPass([(p1, m1), (p2, m2), (p3, m3), (p4, m4)], 2, n1, n3, n4);
  }

  lemma ABNames()
    ensures |Segments("/api/v1/a/b")| > 3 && BucketName(Segments("/api/v1/a/b"), 2) == "a_b"
  {
    ABPath();
    ABSegments();
  }

  lemma ABCNames()
    ensures |Segments("/api/v1/a/b/c")| > 3 && BucketName(Segments("/api/v1/a/b/c"), 2) == "a_b"
  {
    ABCPath();
    ABCSegments();
  }

  lemma ABDNames()
    ensures |Segments("/api/v1/a/b/d")| > 3 && BucketName(Segments("/api/v1/a/b/d"), 2) == "a_b"
    ensures BucketName(Segments("/api/v1/a/b/d"), 3) == "a_b_d"
  {
    ABDPath();
    ABDSegments();
  }

  lemma XYZNames()
    ensures |Segments("/api/v1/x/y/z")| > 3 && BucketName(Segments("/api/v1/x/y/z"), 3) == "x_y_z"
  {
    XYZPath();
    XYZSegments();
  }
}
