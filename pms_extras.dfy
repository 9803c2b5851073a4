/**
 * The template filters: avatar colours picked from a fixed palette by user
 * id, and dictionary lookup for templates.
 */
module PmsExtras {
  import opened Wrappers
  import opened Models
  import opened Calendar

  datatype ColorPair = ColorPair(bg: string, text: string)

  /** `COLOR_PAIRS`: light backgrounds with a matching dark text colour. */
  const ColorPairs: seq<ColorPair> := [
    ColorPair("#e3f2fd", "#0d47a1"),
    ColorPair("#f3e5f5", "#4a148c"),
    ColorPair("#e8f5e9", "#1b5e20"),
    ColorPair("#fff3e0", "#e65100"),
    ColorPair("#ffebee", "#b71c1c"),
    ColorPair("#e0f7fa", "#006064"),
    ColorPair("#fff8e1", "#ff6f00"),
    ColorPair("#fce4ec", "#880e4f")]

  /** `not user_id`: a missing id and id 0 are falsy. */
  predicate Falsy(userId: Option<int>) {
    userId.None? || userId.value == 0
  }

  /** `user_id % len(COLOR_PAIRS)`; Python's `%` by a positive number never goes negative. */
  function PairIndex(userId: int): (k: nat)
    ensures k < |ColorPairs| && (userId - k) % |ColorPairs| == 0
  {
    userId % |ColorPairs|
  }

  /** `get_user_bg_color`. */
  function UserBgColor(userId: Option<int>): (r: string)
    ensures Falsy(userId) ==> r == "#ffffff"
    ensures !Falsy(userId) ==> r == ColorPairs[PairIndex(userId.value)].bg
  {
    if Falsy(userId) then "#ffffff" else ColorPairs[PairIndex(userId.value)].bg
  }

  /** `get_user_text_color`. */
  function UserTextColor(userId: Option<int>): (r: string)
    ensures Falsy(userId) ==> r == "#000000"
    ensures !Falsy(userId) ==> r == ColorPairs[PairIndex(userId.value)].text
  {
    if Falsy(userId) then "#000000" else ColorPairs[PairIndex(userId.value)].text
  }

  /** No two palette entries share a background or a text colour, and none is the fallback. */
  lemma PaletteDistinct()
    ensures forall i, j :: 0 <= i < j < |ColorPairs| ==>
      ColorPairs[i].bg != ColorPairs[j].bg && ColorPairs[i].text != ColorPairs[j].text
    ensures forall i :: 0 <= i < |ColorPairs| ==> ColorPairs[i].bg != "#ffffff" && ColorPairs[i].text != "#000000"
  {
    forall i, j | 0 <= i < j < |ColorPairs|
      ensures ColorPairs[i].bg != ColorPairs[j].bg && ColorPairs[i].text != ColorPairs[j].text
    {
      assert ColorPairs[i].bg[1..4] != ColorPairs[j].bg[1..4] || ColorPairs[i].bg[4..] != ColorPairs[j].bg[4..];
    }
  }

  /**
   * The background is white exactly for a falsy id, and two truthy ids get
   * the same background exactly when they agree modulo the palette size;
   * the text colour always comes from the same palette entry.
   */
  lemma ColorsByResidue(a: int, b: int)
    requires a != 0 && b != 0
    ensures UserBgColor(Some(a)) == UserBgColor(Some(b)) <==> a % 8 == b % 8
    ensures UserTextColor(Some(a)) == UserTextColor(Some(b)) <==> a % 8 == b % 8
    ensures UserBgColor(Some(a)) != "#ffffff" && UserTextColor(Some(a)) != "#000000"
  {
    PaletteDistinct();
    var i, j := PairIndex(a), PairIndex(b);
    if i < j {
      assert ColorPairs[i].bg != ColorPairs[j].bg;
    } else if j < i {
      assert ColorPairs[j].bg != ColorPairs[i].bg;
    }
  }

  /** The background and text colours a user gets always form one palette pair. */
  lemma ColorsPaired(userId: Option<int>)
    ensures ColorPair(UserBgColor(userId), UserTextColor(userId)) in ColorPairs + [ColorPair("#ffffff", "#000000")]
  {
    if !Falsy(userId) {
      assert ColorPairs[PairIndex(userId.value)] in ColorPairs;
    }
  }

  /** `dictionary.get(key)`. */
  function GetItem<K, V>(d: map<K, V>, key: K): (r: Option<V>)
    ensures r.Some? <==> key in d
    ensures r.Some? ==> r.value == d[key]
  {
    if key in d then Some(d[key]) else None
  }

  /**
   * The calendar's `updates_dict|get_item:day` gives a day's updates in
   * list order when the day has any, and nothing otherwise.
   */
  lemma CalendarCell(updates: seq<DailyUpdate>, byDay: map<int, seq<DailyUpdate>>, day: int)
    requires byDay.Keys == DaysOf(updates)
    requires forall d :: d in byDay ==> byDay[d] == OnDay(updates, d)
    ensures GetItem(byDay, day).Some? <==> exists u :: u in updates && u.date.day == day
    ensures GetItem(byDay, day).Some? ==> GetItem(byDay, day).value == OnDay(updates, day)
  {
    if exists u :: u in updates && u.date.day == day {
      var u :| u in updates && u.date.day == day;
      assert day in DaysOf(updates);
    }
  }
}
