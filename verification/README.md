# WooCommerce Custom City Dropdown — a verified model

This is a Dafny model of the WooCommerce plugin that replaces the free-text checkout city
field with a dropdown of Northern Virginia cities. It covers the plugin's three pieces of
logic:

- **City registry** (`get_cities_list`, `format_cities_for_select`). A fixed, ordered list of
  five regions and their 54 cities. It is flattened into the dropdown option array: a
  placeholder `"" => "Select a city *"` first, then each city keyed by its own name.
- **Field-schema filters** (`customize_city_field`, `customize_default_city_field`). The
  checkout filter turns `billing.billing_city` and `shipping.shipping_city` into selects over
  that option array. The default-address filter does the same for `city`. Everything else in
  the schema is kept.
- **Submission validator** (`validate_city_field`). A non-empty billing or shipping city that
  is not exactly a registry city gives one error for that field.

PHP arrays are ordered maps. They are modelled as lists of `(key, value)` entries
(`PhpArrays.Arr`). `Put` models `$a[$k] = $v`: it overwrites the value in place when the key
exists and appends the entry otherwise. `Get`, `HasKey` and `Unset` model reading, `isset` /
`array_key_exists`, and `unset`. Field descriptors are attribute arrays whose values are
strings, flags, numbers, class lists or nested string arrays (`FieldSchema.Attr`). The
WP_Error collector is modelled as the returned list of `FieldError(field, message)` values.

Modules and files:

| file | module | models |
|---|---|---|
| `wrappers.dfy` | `Wrappers` | `Option` |
| `sequences.dfy` | `Sequences` | distinctness and disjointness of sequences |
| `php_arrays.dfy` | `PhpArrays` | ordered string-keyed PHP arrays |
| `city_registry.dfy` | `CityRegistry` | `get_cities_list` and the uniqueness of city names |
| `city_options.dfy` | `CityOptions` | `format_cities_for_select` |
| `field_schema.dfy` | `FieldSchema` | `customize_city_field`, `customize_default_city_field` |
| `city_validation.dfy` | `CityValidation` | `validate_city_field` |
| `validation_examples.dfy` | `ValidationExamples` | concrete submissions and their outcome |

Behaviour of the code that is easy to misread, and that the model keeps:

- The class lists are exact lists, not minimum sets. The checkout filter assigns
  `form-row-wide, address-field, update_totals_on_change`. The default-address filter
  assigns `form-row-wide, address-field`.
- Only the checkout filter sets `custom_attributes` (`data-placeholder => "Select a city"`).
  The default-address filter leaves that attribute as it was. Both filters set the same
  `type` and the same `options`.
- PHP `empty()` decides which submitted values are skipped. It skips a missing key, `""`
  and `"0"`, but not whitespace-only values such as `" "`. Those are rejected like any
  other non-city.

## Model

| member | source | states |
|---|---|---|
| CityRegistry.GetCitiesList | woo-custom-city-dropdown.php:42-109 | The registry has the five regions in declaration order under distinct names. Its cities, flattened in order, are exactly the five declared lists concatenated: 54 names, pairwise distinct, none equal to the placeholder key `""`. |
| CityRegistry.CityNamesUnique | woo-custom-city-dropdown.php:44-107 | No city name occurs twice in the registry, across regions too (e.g. the two "Alexandria" entries differ), and none is `""`. |
| PhpArrays.HasKeyMeansEntry | woo-custom-city-dropdown.php:134 | `isset($a[$k])` and `array_key_exists($k, $a)` (the model has no null values, so the two agree) hold exactly when some entry of the array carries the key `$k`. |
| PhpArrays.Get | woo-custom-city-dropdown.php:177 | Reading `$a[$k]` gives a value exactly when the key exists, and that value is the one stored under the key. |
| PhpArrays.Put | woo-custom-city-dropdown.php:120 | After `$a[$k] = $v`, `$k` reads `$v` and every other key reads as before. An existing key keeps its position, so the key order is unchanged. A new key is appended at the end. |
| PhpArrays.PutAll | woo-custom-city-dropdown.php:135-140 | After a run of assignments to distinct keys, each assigned key reads its new value, every other key reads as before, and the old keys stay a prefix of the new key order. |
| PhpArrays.Unset | woo-custom-city-dropdown.php:175 | After `unset($a[$k])` the key is gone and every other key reads as before. Unsetting a missing key changes nothing. |
| PhpArrays.UnsetOrder | woo-custom-city-dropdown.php:175 | `unset` keeps the remaining keys in their old order, dropping only the unset key. An array without duplicate keys keeps that property. |
| PhpArrays.PutAllOrder | woo-custom-city-dropdown.php:135-140 | After a run of assignments the key order is the old keys, then the assigned keys that were new, in assignment order. An array without duplicate keys keeps that property. |
| PhpArrays.PutExisting | woo-custom-city-dropdown.php:120 | Assigning to a key the value it already holds leaves the array identical. |
| PhpArrays.PutAllExisting | woo-custom-city-dropdown.php:135-140 | Re-running assignments whose values are already in place leaves the array identical. |
| CityOptions.InsertCities | woo-custom-city-dropdown.php:119-121 | After the inner loop, each city of the region reads as itself, and every other key reads as before. |
| CityOptions.InsertRegions | woo-custom-city-dropdown.php:118-122 | After the outer loop, each registry city reads as itself, and every other key (the placeholder) reads as before. |
| CityOptions.InsertCitiesAppends | woo-custom-city-dropdown.php:119-121 | When the region's cities are distinct and new, the loop only appends `(city, city)` entries in city order. It never overwrites an earlier entry. |
| CityOptions.InsertRegionsAppends | woo-custom-city-dropdown.php:118-122 | When all cities are distinct and new, the nested loops append one `(city, city)` entry per city, in region order and then city order. |
| CityOptions.FormatCitiesForSelect | woo-custom-city-dropdown.php:114-125 | The dropdown options are `"" => "Select a city *"` first, then every registry city in region order and city order, each keyed by its own name. That is 55 entries, and no key repeats. |
| CityOptions.FormatRegions | woo-custom-city-dropdown.php:114-125 | For any registry with unique, non-empty city names, the option array is the placeholder entry followed by one self-keyed entry per city, in order. |
| FieldSchema.CitySelectWrites | woo-custom-city-dropdown.php:135-140 | The assignments made to a city descriptor write `type`, `options`, `class` and, for checkout only, `custom_attributes`, to distinct keys and with the given values. |
| FieldSchema.ToCitySelect | woo-custom-city-dropdown.php:135-140 | A rewritten descriptor has type "select", the given options, the given class list, and the given custom attributes (or the old ones when none are given). Every other attribute keeps its value. The old attributes keep their order; the assigned ones it lacked follow in the order type, options, class, custom_attributes; no attribute is duplicated. |
| FieldSchema.AdaptField | woo-custom-city-dropdown.php:160-165 | A schema without the key is returned unchanged. Otherwise only that field is rewritten into a city select; all other fields and the field order are kept. |
| FieldSchema.CustomizeDefaultCityField | woo-custom-city-dropdown.php:159-168 | A schema without `city` is returned unchanged. Otherwise `city` becomes a select over the dropdown list with classes `form-row-wide, address-field`, and its custom attributes and other attributes are kept. No other field changes. |
| FieldSchema.AdaptGroup | woo-custom-city-dropdown.php:134-141 | Only the named group changes, and only when it contains the city field. That field becomes a checkout city select; the group's other fields are kept. |
| FieldSchema.AdaptCheckout | woo-custom-city-dropdown.php:131-153 | Billing and shipping city fields are each rewritten when present, independently of each other. Groups other than billing and shipping are untouched, and the group order is kept. |
| FieldSchema.CustomizeCityField | woo-custom-city-dropdown.php:130-154 | `billing.billing_city` and `shipping.shipping_city` each, if present, become selects over the full dropdown list (placeholder included), with the checkout classes and the data-placeholder attribute. A missing group or field is left as it was; every other group, field and attribute is preserved. |
| FieldSchema.ToCitySelectIdempotent | woo-custom-city-dropdown.php:135-140 | Rewriting a descriptor that is already a city select leaves it identical. |
| FieldSchema.AdaptFieldIdempotent | woo-custom-city-dropdown.php:160-165 | Rewriting a field twice gives the same schema as rewriting it once. |
| FieldSchema.AdaptGroupIdempotent | woo-custom-city-dropdown.php:134-141 | Rewriting a group's city field twice gives the same schema as once. |
| FieldSchema.CustomizeDefaultCityFieldIdempotent | woo-custom-city-dropdown.php:159-168 | Applying the default-address filter twice gives the same schema as once. |
| FieldSchema.CustomizeCityFieldIdempotent | woo-custom-city-dropdown.php:130-154 | Applying the checkout filter twice gives the same schema as once. |
| FieldSchema.SharedOptions | woo-custom-city-dropdown.php:131-163 | With the same dropdown list, the checkout billing city field and the default `city` field get equal `options`. |
| FieldSchema.FiltersShareOptions | woo-custom-city-dropdown.php:130-168 | Both filters give their city field the same `options` value: the dropdown option array. |
| CityValidation.AllowedFromRegions | woo-custom-city-dropdown.php:174-175 | For any registry with unique, non-empty names, removing the placeholder from the option array leaves exactly the cities as keys, in order. |
| CityValidation.IsEmpty | woo-custom-city-dropdown.php:177-181 | PHP `empty()` on a submitted value: a missing value and `""` are empty; a one-character string is empty exactly when it is `"0"`; any longer string, whitespace included, is not. |
| CityValidation.AllowedCities | woo-custom-city-dropdown.php:174-175 | The allowed keys are exactly the 54 registry cities, in order: `""` is not allowed, and every registry city is. |
| CityValidation.CheckCity | woo-custom-city-dropdown.php:177-179 | A single check gives at most one error, on the given field with the given message. It gives one exactly when the value is present, is neither `""` nor `"0"`, and is not an allowed key. |
| CityValidation.ValidateAgainst | woo-custom-city-dropdown.php:173-184 | Against any allowed-key array, the result is the billing error if billing is rejected, followed by the shipping error if shipping is rejected. |
| CityValidation.ValidateCityField | woo-custom-city-dropdown.php:173-184 | At most two errors, billing before shipping. The billing error appears exactly when the billing city is present, is neither `""` nor `"0"`, and is not a registry city (exact string comparison). The shipping check is the same and independent. |
| ValidationExamples.RestonPasses | woo-custom-city-dropdown.php:177-179 | A billing city of "Reston" with no shipping city gives no error. |
| ValidationExamples.SuffixedRestonFails | woo-custom-city-dropdown.php:177-179 | "Reston, VA" gives exactly one billing error; no trimming is applied. |
| ValidationExamples.LowerCaseRestonFails | woo-custom-city-dropdown.php:177-179 | "reston" gives exactly one billing error; no case folding is applied. |
| ValidationExamples.EmptyBillingValidShippingPasses | woo-custom-city-dropdown.php:177-183 | An empty billing city is skipped, and a shipping city of "Ashburn" passes. |
| ValidationExamples.UnknownShippingFails | woo-custom-city-dropdown.php:181-183 | A shipping city of "Atlantis" with no billing city gives exactly one error, on `shipping_city`. |
| ValidationExamples.BothUnknownFail | woo-custom-city-dropdown.php:177-183 | Two bad cities give two errors: billing first, then shipping. |
| ValidationExamples.ZeroIsSkipped | woo-custom-city-dropdown.php:177-183 | `"0"` counts as empty in PHP, so it is accepted in both fields although it is no city. |

## Left out

- `add_custom_styles` (lines 189-213): it emits constant CSS, gated on the host predicates `is_checkout()` and `is_account_page()`. This is presentation plus host calls.
- The constructor's `add_filter` / `add_action` registrations, `woo_custom_city_dropdown_init`, and the `ABSPATH` guard: host event plumbing. Each hook is modelled as the plain function it registers.
- `__()` translation is the identity on its literal strings.
- WP_Error is not modelled as an object. The validator returns the errors it would add, in order.
- PHP null values: no descriptor or submitted value is null. So `isset` is modelled as key presence, and a missing submitted key reads as null, which `empty()` treats as empty.
- PHP's conversion of numeric-string keys to integer keys. No registry city is numeric, so exact string comparison gives the same membership result.
- Submitted values that are not strings (arrays, numbers) are out of scope. Submitted data is a string-to-string array.
- The registry is a constant. The filters compute the option array once per call, as the code does with `$cities`. Inside the model it is passed to the helper functions as a parameter.
