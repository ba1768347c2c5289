/** The image a food card shows. With no image path, or once the image failed
    to load, a placeholder is picked from a fixed table by looking for keywords
    in the lower-cased food name, in a fixed priority order. Otherwise the path
    is resolved by a helper of the API layer, which is not part of this model
    and so is an input here. */
module FoodCard {
  import opened Common

  const PizzaUrl: string := "https://images.unsplash.com/photo-1565299624946-b28f40a0ae38?w=400&h=300&fit=crop"
  const SaladUrl: string := "https://images.unsplash.com/photo-1546069901-ba9599a7e63c?w=400&h=300&fit=crop"
  const BurgerUrl: string := "https://images.unsplash.com/photo-1568901346375-23c9450c58cd?w=400&h=300&fit=crop"
  const WingsUrl: string := "https://images.unsplash.com/photo-1527477396000-e27163b481c2?w=400&h=300&fit=crop"
  const PastaUrl: string := "https://images.unsplash.com/photo-1551183053-bf91a1d81141?w=400&h=300&fit=crop"
  const FishUrl: string := "https://images.unsplash.com/photo-1544943910-4c1dc44aab44?w=400&h=300&fit=crop"
  const BrownieUrl: string := "https://images.unsplash.com/photo-1606313564200-e75d5e30476c?w=400&h=300&fit=crop"
  const DefaultUrl: string := "https://images.unsplash.com/photo-1546069901-ba9599a7e63c?w=400&h=300&fit=crop"

  /** The entries of the placeholder table. */
  datatype Image = Pizza | Salad | Burger | Wings | Pasta | Fish | Brownie | Default

  /** The address each entry of the table holds. */
  function Url(image: Image): string {
    match image
    case Pizza => PizzaUrl
    case Salad => SaladUrl
    case Burger => BurgerUrl
    case Wings => WingsUrl
    case Pasta => PastaUrl
    case Fish => FishUrl
    case Brownie => BrownieUrl
    case Default => DefaultUrl
  }

  /** `toLowerCase` on the ASCII letters. */
  function LowerChar(c: char): (d: char)
    ensures !('A' <= d <= 'Z')
    ensures !('A' <= c <= 'Z') ==> d == c
  {
    if 'A' <= c <= 'Z' then (c as int - 'A' as int + 'a' as int) as char else c
  }

  function ToLower(s: string): (r: string)
    ensures |r| == |s| && forall i :: 0 <= i < |s| ==> r[i] == LowerChar(s[i])
  {
    seq(|s|, i requires 0 <= i < |s| => LowerChar(s[i]))
  }

  /** Lower-casing twice is lower-casing once. */
  lemma ToLowerIdempotent(s: string)
    ensures ToLower(ToLower(s)) == ToLower(s)
  {
  }

  /** The fallback: the first keyword, in priority order, that the lower-cased
      name contains picks the image; a name with none of them gets the default. */
  function Placeholder(name: string): Image {
    var lower := ToLower(name);
    if Contains(lower, "pizza") then Pizza
    else if Contains(lower, "salad") then Salad
    else if Contains(lower, "burger") then Burger
    else if Contains(lower, "wing") then Wings
    else if Contains(lower, "pasta") then Pasta
    else if Contains(lower, "fish") then Fish
    else if Contains(lower, "brownie") then Brownie
    else Default
  }

  /** The keywords with their images, highest priority first. */
  function Keywords(): seq<(string, Image)> {
    [("pizza", Pizza), ("salad", Salad), ("burger", Burger), ("wing", Wings),
     ("pasta", Pasta), ("fish", Fish), ("brownie", Brownie)]
  }

  /** A priority list read as a lookup: the image of the first keyword that
      `lower` contains, or the default when it contains none. */
  function Pick(lower: string, keywords: seq<(string, Image)>): Image {
    if keywords == [] then Default
    else if Contains(lower, keywords[0].0) then keywords[0].1
    else Pick(lower, keywords[1..])
  }

  /** The first keyword the text contains decides. */
  lemma {:induction false} PickFirst(lower: string, keywords: seq<(string, Image)>, i: nat)
    requires i < |keywords| && Contains(lower, keywords[i].0)
    requires forall j :: 0 <= j < i ==> !Contains(lower, keywords[j].0)
    ensures Pick(lower, keywords) == keywords[i].1
  {
    if i > 0 {
      assert !Contains(lower, keywords[0].0);
      PickFirst(lower, keywords[1..], i - 1);
    }
  }

  /** A text that contains no keyword gets the default. */
  lemma {:induction false} PickNone(lower: string, keywords: seq<(string, Image)>)
    requires forall j :: 0 <= j < |keywords| ==> !Contains(lower, keywords[j].0)
    ensures Pick(lower, keywords) == Default
  {
    if keywords != [] {
      assert !Contains(lower, keywords[0].0);
      PickNone(lower, keywords[1..]);
    }
  }

  /** The chain of tests is the lookup in the priority list: the first keyword
      the name contains wins. */
  lemma PlaceholderFirstMatch(name: string)
    ensures Placeholder(name) == Pick(ToLower(name), Keywords())
  {
    var lower := ToLower(name);
    var ks := Keywords();
    if Contains(lower, "pizza") {
      PickFirst(lower, ks, 0);
    } else if Contains(lower, "salad") {
      PickFirst(lower, ks, 1);
    } else if Contains(lower, "burger") {
      PickFirst(lower, ks, 2);
    } else if Contains(lower, "wing") {
      PickFirst(lower, ks, 3);
    } else if Contains(lower, "pasta") {
      PickFirst(lower, ks, 4);
    } else if Contains(lower, "fish") {
      PickFirst(lower, ks, 5);
    } else if Contains(lower, "brownie") {
      PickFirst(lower, ks, 6);
    } else {
      PickNone(lower, ks);
    }
  }

  /** Two names that agree up to case get the same image; in particular a
      name and its lower-cased form do. */
  lemma PlaceholderIgnoresCase(a: string, b: string)
    requires ToLower(a) == ToLower(b)
    ensures Placeholder(a) == Placeholder(b)
    ensures Placeholder(ToLower(a)) == Placeholder(a)
  {
    ToLowerIdempotent(a);
  }

  lemma ToLowerAppend(a: string, b: string)
    ensures ToLower(a + b) == ToLower(a) + ToLower(b)
  {
    assert forall i :: 0 <= i < |a + b| ==> ToLower(a + b)[i] == (ToLower(a) + ToLower(b))[i];
  }

  /** A keyword found anywhere in a name is found after anything is put in front of it. */
  lemma {:induction false} ContainsAfterPrefix(prefix: string, s: string, sub: string)
    requires Contains(s, sub)
    ensures Contains(prefix + s, sub)
  {
    if prefix == [] {
      assert prefix + s == s;
    } else {
      assert (prefix + s)[1..] == prefix[1..] + s;
      ContainsAfterPrefix(prefix[1..], s, sub);
    }
  }

  /** A text that lacks one of the letters of a keyword does not contain it. */
  lemma {:induction false} MissingLetter(s: string, sub: string, k: nat)
    requires k < |sub| && forall i :: 0 <= i < |s| ==> s[i] != sub[k]
    ensures !Contains(s, sub)
  {
    assert !StartsWith(s, sub) by {
      if |sub| <= |s| {
        assert s[..|sub|][k] == s[k];
      }
    }
    if s != [] {
      MissingLetter(s[1..], sub, k);
    }
  }

  /** "chicken wings" holds "wing" and none of the keywords before it. */
  lemma NoPizza()
    ensures !Contains("chicken wings", "pizza")
  {
    MissingLetter("chicken wings", "pizza", 2);
  }

  lemma NoSalad()
    ensures !Contains("chicken wings", "salad")
  {
    MissingLetter("chicken wings", "salad", 1);
  }

  lemma NoBurger()
    ensures !Contains("chicken wings", "burger")
  {
    MissingLetter("chicken wings", "burger", 0);
  }

  lemma HasWing()
    ensures Contains("chicken wings", "wing")
  {
    assert StartsWith("wings", "wing");
    ContainsAfterPrefix("chicken ", "wings", "wing");
    assert "chicken " + "wings" == "chicken wings";
  }

  /** Only "wing" of the keywords occurs in "chicken wings": the wing test
      is a substring test, so the plural name gets the wings image. */
  lemma ChickenWingsGetWings()
    ensures Placeholder("Chicken Wings") == Wings
  {
    LowerChickenWings();
    NoPizza();
    NoSalad();
    NoBurger();
    HasWing();
  }

  lemma LowerChickenWings()
    ensures ToLower("Chicken Wings") == "chicken wings"
  {
  }

  /** A keyword placed anywhere in a text is found in it. */
  lemma ContainsMiddle(a: string, sub: string, b: string)
    ensures Contains(a + sub + b, sub)
  {
    assert StartsWith(sub + b, sub);
    ContainsAfterPrefix(a, sub + b, sub);
    assert a + (sub + b) == a + sub + b;
  }

  /** Any name that mentions pizza, in any case, shows the pizza image,
      whatever else it mentions. */
  lemma PizzaWins(before: string, after: string)
    ensures Placeholder(before + "Pizza" + after) == Pizza
  {
    var lower := ToLower(before + "Pizza" + after);
    assert lower == ToLower(before) + "pizza" + ToLower(after) by {
      ToLowerAppend(before + "Pizza", after);
      ToLowerAppend(before, "Pizza");
      LowerPizza();
    }
    ContainsMiddle(ToLower(before), "pizza", ToLower(after));
  }

  lemma LowerPizza()
    ensures ToLower("Pizza") == "pizza"
  {
  }

  /** The image the card shows, as the component is written: the fallback
      applies when there is no truthy path or the image failed; otherwise the
      resolved path is used. When that resolves to nothing, the right-hand side
      of `||` reads the placeholder table outside the block that declares it,
      which throws. `resolved` is what the API helper returns for the path. */
  datatype Shown = Shows(url: string) | Throws

  function ImageUrlAsWritten(imagePath: Option<string>, imageError: bool, name: string,
                             resolved: Option<string>): (r: Shown)
    ensures !Present(imagePath) || imageError ==> r == Shows(Url(Placeholder(name)))
    ensures Present(imagePath) && !imageError ==> (r.Throws? <==> !Present(resolved))
  {
    if !Present(imagePath) || imageError then Shows(Url(Placeholder(name)))
    else if Present(resolved) then Shows(resolved.value)
    else Throws
  }

  /** A food with an image path that the helper cannot resolve makes the card throw. */
  lemma UnresolvedPathThrows()
    ensures ImageUrlAsWritten(Some("foods/pizza.jpg"), false, "Margherita Pizza", None) == Throws
  {
  }

  /** The image the card shows, with the default image as the fallback for a
      path that resolves to nothing, as the expression evidently means. */
  function ImageUrl(imagePath: Option<string>, imageError: bool, name: string, resolved: Option<string>): (url: string)
    ensures url != ""
    ensures !Present(imagePath) || imageError ==> url == Url(Placeholder(name))
    ensures Present(imagePath) && !imageError && Present(resolved) ==> url == resolved.value
    ensures (exists image :: url == Url(image)) || Some(url) == resolved
  {
    if !Present(imagePath) || imageError then Url(Placeholder(name))
    else if Present(resolved) then resolved.value
    else Url(Default)
  }

  /** Wherever the component as written shows an image, the corrected one
      shows the same; it differs only where the original throws. */
  lemma ImageUrlAgrees(imagePath: Option<string>, imageError: bool, name: string, resolved: Option<string>)
    ensures ImageUrlAsWritten(imagePath, imageError, name, resolved).Shows? ==>
              ImageUrlAsWritten(imagePath, imageError, name, resolved).url == ImageUrl(imagePath, imageError, name, resolved)
    ensures ImageUrlAsWritten(imagePath, imageError, name, resolved).Throws? ==> ImageUrl(imagePath, imageError, name, resolved) == Url(Default)
  {
  }
}
